# Lesson planner: a Dafny model

The lesson planner is a static page with serverless functions behind it. A teacher types a subject and a topic and picks a class level. The page posts them to the `generate-lesson` function. That function builds a prompt, asks a generative model for a JSON lesson plan, strips any markdown fence from the reply, and checks that the plan has exactly three behavioural objectives. The page then shows the objectives one per line, each but the first after a bullet, with the summary below them, or shows an error message. A second function, `find-working-model`, tries a fixed list of model names in turn and reports which one answers first.

This project models those three pieces and proves their properties:

- `generate_lesson.dfy` (`GenerateLesson`) models the endpoint as a pure function from the request, the configured key and the two upstream services to the response. It covers:
  - the method dispatch;
  - the key check, which comes before the request body is read;
  - the field check;
  - the prompt template;
  - the fence stripper;
  - the lesson checks;
  - the `catch` block, which turns every thrown error into a 500.
- `find_working_model.dfy` (`FindWorkingModel`) models the probe loop as a method. The method is proved equal to a recursive specification `Scan`, and lemmas then give the shape of its results.
- `lesson_client.dfy` (`LessonClient`) models the page. Validation and the reading of the answer are functions. The page state is the class `LessonForm`: its input values, the two generated fields, the button with its text and spinner, and the error messages. Its methods are `setLoadingState`, `showError`, `hideError` and `generateLessonPlan`. The last is split at its `await` into `StartRequest` and `Conclude`. A `SetInputs` method stands for the user editing the form between two runs.
- `end_to_end.dfy` (`EndToEnd`) connects the page to the endpoint:
  - every request the page sends passes the endpoint's field check;
  - every refusal reaches the page as "HTTP error! status: N";
  - every lesson the endpoint returns without a truthy `error` member has three objectives, and they fill the objectives field whenever `join` can print them. A lesson that does carry a truthy `error` is returned with 200 but shown by the page as that error.
- `js_text.dfy` (`JsText`) and `json_value.dfy` (`JsonValue`) hold the JavaScript semantics the rest relies on:
  - `String.prototype.trim` with the ECMAScript white-space set;
  - `Array.prototype.join`;
  - number printing;
  - truthiness;
  - property reads on parsed JSON, where the last duplicate key wins;
  - `ToString` of parsed values. It is partial: an object with an own `toString` member, alone or inside an array, throws "Cannot convert object to primitive value", because a parsed member is never callable and `valueOf` returns the object itself. Any other object prints as "[object Object]".

The upstream services are parameters:

- the endpoint's `JSON.parse` is `parse: string -> Parsed`;
- the page's `Response.json()` is the `json: Parsed` that a `FetchOutcome.HttpResponse` carries;
- the Gemini call is `generate: (model, prompt) -> Reply` for the endpoint and `probe: model -> Probe` for the probe;
- the whole request as the page sees it is `fetch: LessonRequest -> FetchOutcome`.

The prompt wording is a parameter `texts: PromptTexts` of the handler. Its proofs therefore hold for any wording. The wording the endpoint actually sends is the constant `SourcePrompt`, which is the template of `netlify/functions/generate-lesson.js` lines 52-81 character for character.

The model makes the following choices:

- The closing pattern `/```\n?$/` is anchored by `$`, so it matches only at the very end of the text: the closing fence comes off only when the trimmed reply ends with it. Since the reply is trimmed before the fences are stripped, it never ends with a newline. So the optional newline of that pattern cannot match inside `CleanFences`, and the 4-character case of `DropClosing` is unreachable there; `DropClosing` still models the pattern in full. An unclosed opening fence leaves the rest, trailing backticks included, untouched (`CleanFencesKeepsUnclosedTail`). The result is not trimmed a second time.
- The page trims the subject and the topic but not the class level. It joins the objectives with `"\n• "`. The first objective therefore gets no bullet of its own, and `replace(/^•/, '')` removes only a bullet the first objective itself starts with (`ThreeObjectivesShown`, `LeadingBulletRemoved`).
- Every non-2xx response is thrown as "HTTP error! status: N" before its body is read. The endpoint's `error` and `details` fields therefore never reach the page (`RefusalsShownAsStatus`).
- Errors that the engine raises are modelled with V8's message texts:
  - destructuring a `null` body;
  - reading `behavioralObjectives` or `error` of `null`;
  - calling `join` on a value that is not an array;
  - converting an object with an own `toString` member to a string. This can happen in four places. At the endpoint, a field spliced into the prompt throws before the model is called (`UnprintableFieldThrows`). At the page, a truthy `error` handed to `new Error` throws, and so does an objective that `join` prints. A summary written into its text area throws after the objectives field has already been written: the objectives stay and the error is shown (`Outcome.ObjectivesOnly`).

## Model

| member | source | states |
|---|---|---|
| JsText.Trim | netlify/functions/generate-lesson.js:89 | the result is a piece of the input with only JavaScript white space around it, and it neither starts nor ends with white space |
| JsText.TrimRemovesMargins | script.js:38-39 | trimming white space around an already trimmed text gives back exactly that text |
| JsText.Join | script.js:77 | `join` of no items is empty, of one item is that item, and always starts with the first item |
| JsText.JoinAppend | script.js:77 | appending an item to a non-empty list appends the separator and the item, so the separator stands between every two neighbouring items |
| JsText.DecimalRoundTrip | script.js:66 | the decimal text printed for a status code reads back as that code |
| JsonValue.LastMember | netlify/functions/generate-lesson.js:99 | a key is found iff some member has it, and the value found is that of the last member with that key |
| JsonValue.ArrayPrintsJoined | script.js:77 | an example, not a general law: `[a, null, [b, c]]` prints as a + ",," + b + "," + c |
| JsonValue.ConvertibleIffNoBlockingLeaf | script.js:71-72 | proved by induction against an independent reading (flatten the arrays with `Leaves`, then look at each leaf): a value converts to a string iff none of its leaves is an object with an own `toString` member |
| GenerateLesson.Handle | netlify/functions/generate-lesson.js:11-130 | every response carries the CORS headers and has status 200, 400, 405 or 500; it is 200 iff the request was a preflight or a lesson is returned; a returned lesson has three objectives; every 500 is "Failed to generate lesson plan" |
| GenerateLesson.TryGenerate | netlify/functions/generate-lesson.js:29-115 | the `try` block returns only the 400 for missing fields or a 200 lesson with three objectives; everything else is thrown, including the TypeError of a complete request whose field the template literal cannot convert (see `UnprintableFieldThrows`) |
| GenerateLesson.Respond | netlify/functions/generate-lesson.js:117-130 | a thrown error becomes a 500 whose details are the error's message; a returned response is kept |
| GenerateLesson.CheckLesson | netlify/functions/generate-lesson.js:101-115 | the parsed reply is returned, unchanged and with status 200, iff it is not null and its `behavioralObjectives` is an array of three |
| GenerateLesson.PreflightAlwaysSucceeds | netlify/functions/generate-lesson.js:13-19 | OPTIONS is answered with 200 and an empty body whatever the key and the services |
| GenerateLesson.OtherMethodsRejected | netlify/functions/generate-lesson.js:21-27 | any method but OPTIONS and POST gets 405 "Method Not Allowed" |
| GenerateLesson.KeyCheckedBeforeFields | netlify/functions/generate-lesson.js:31-34 | without a key, a POST is a 500 with "Gemini API key not configured" whatever its body |
| GenerateLesson.MissingFieldsRejected | netlify/functions/generate-lesson.js:37-45 | with the key set, a body lacking a truthy subject, topic or class level gets 400 with the missing-fields message |
| GenerateLesson.CompleteRequestsNotRefused | netlify/functions/generate-lesson.js:37-45 | a complete request is answered with 200 or 500, never 400 or 405 |
| GenerateLesson.ModelCalledOnlyForCompleteRequests | netlify/functions/generate-lesson.js:48-86 | if two model services lead to different responses, the request was complete, its fields convert to strings, and the services differ on that request's prompt for gemini-1.5-flash |
| GenerateLesson.UnprintableFieldThrows | netlify/functions/generate-lesson.js:52-58 | a complete request with a field that is an object with an own `toString` is a 500 with "Cannot convert object to primitive value", whatever the model would answer |
| GenerateLesson.ReplyDecidedByLessonCheck | netlify/functions/generate-lesson.js:99-115 | once the cleaned reply parses, the response is what the lesson checks make of the parsed value |
| GenerateLesson.SucceedsExactlyWithThreeObjectives | netlify/functions/generate-lesson.js:102-115 | once the cleaned reply parses, the status is 200 iff the value has exactly three objectives, and the body is then that value |
| GenerateLesson.ObjectivesMustBeAnArray | netlify/functions/generate-lesson.js:102-104 | a parsed reply without an array of objectives is a 500 with the not-an-array message |
| GenerateLesson.WrongCountThrown | netlify/functions/generate-lesson.js:106-108 | the lesson checks throw the exactly-3 error for an array of objectives of any other length |
| GenerateLesson.ObjectivesMustBeThree | netlify/functions/generate-lesson.js:106-108 | an array of objectives of any other length than 3 is a 500 with the exactly-3 message |
| GenerateLesson.Prompt | netlify/functions/generate-lesson.js:52-81 | the template literal with the three fields spliced in; what it gives is proved by `PromptQuotesFields`: the labelled subject, topic and class-level lines verbatim after the introduction, the level line quoting the class level, and the class level twice at non-overlapping places |
| GenerateLesson.PromptQuotesFields | netlify/functions/generate-lesson.js:52-81 | for any wording (`QuotesFields`): after the introduction the prompt has the labelled subject, topic and class-level lines verbatim; the level line quotes the class level; the class level occurs twice, at non-overlapping places |
| GenerateLesson.SourcePromptQuotesFields | netlify/functions/generate-lesson.js:52-81 | for the wording the endpoint sends: the labelled lines verbatim after the introduction, the level line quoting the class level, and the class level twice at non-overlapping places |
| GenerateLesson.DropOpening | netlify/functions/generate-lesson.js:93-95 | `replace(/```json\n?/, '')` or `replace(/```\n?/, '')` drops the fence's characters, then one newline exactly when one follows, and nothing else |
| GenerateLesson.DropClosing | netlify/functions/generate-lesson.js:93 | `replace(/```\n?$/, '')` removes nothing or a 3- or 4-character suffix, and nothing when the text does not end with a fence |
| GenerateLesson.StripFence | netlify/functions/generate-lesson.js:92-96 | the stripped text is a piece of the trimmed reply, and it is the reply itself when the reply does not start with a fence; the exact result for each opening fence (```json or ```), with or without its newline, closed or unclosed, is stated by the Strip lemmas below |
| GenerateLesson.CleanFences | netlify/functions/generate-lesson.js:89-96 | the cleaned text is a piece of the trimmed reply; an unfenced reply is only trimmed |
| GenerateLesson.StripClosingFence | netlify/functions/generate-lesson.js:93 | a closing fence at the very end is removed |
| GenerateLesson.StripJsonFence | netlify/functions/generate-lesson.js:92-93 | "```json\n" + inner + "```" becomes exactly inner |
| GenerateLesson.StripBareFence | netlify/functions/generate-lesson.js:94-95 | "```\n" + inner + "```" becomes exactly inner |
| GenerateLesson.CleanFencesUnwrapsJsonFence | netlify/functions/generate-lesson.js:89-93 | with white space around it, a ```json-fenced reply cleans to exactly the text between the fences |
| GenerateLesson.CleanFencesUnwrapsBareFence | netlify/functions/generate-lesson.js:89-96 | the same for a bare fence |
| GenerateLesson.CleanFencesKeepsUnclosedTail | netlify/functions/generate-lesson.js:92-93 | without a closing fence, only the opening fence and its newline are removed |
| GenerateLesson.StripUnclosedFence | netlify/functions/generate-lesson.js:93 | an opening ```json fence and its newline go, and a tail that is not a fence stays |
| GenerateLesson.StripJsonFenceNoNewline | netlify/functions/generate-lesson.js:92-93 | the newline after ```json is optional: "```json" + inner + "```" becomes exactly inner when inner does not start with a newline |
| GenerateLesson.StripBareFenceNoNewline | netlify/functions/generate-lesson.js:94-95 | the same for a bare ``` fence, when inner does not start with "json" |
| GenerateLesson.StripUnclosedBareFence | netlify/functions/generate-lesson.js:94-95 | without a closing fence, only the opening ``` fence and its newline are removed |
| GenerateLesson.StripUnclosedJsonFenceNoNewline | netlify/functions/generate-lesson.js:92-93 | "```json" + inner becomes exactly inner when inner neither starts nor ends with a newline and does not end with a fence |
| GenerateLesson.StripUnclosedBareFenceNoNewline | netlify/functions/generate-lesson.js:94-95 | the same for a bare ``` fence, when inner does not start with "json" |
| GenerateLesson.CleanFencesOnlyTrimsUnfenced | netlify/functions/generate-lesson.js:89-97 | a reply that does not start with a fence is only trimmed |
| FindWorkingModel.Preview | netlify/functions/find-working-model.js:30 | `substring(0, 50)` is the first min(50, length) characters of the reply |
| FindWorkingModel.Entry | netlify/functions/find-working-model.js:27-41 | an entry names its model, is a success iff the model answered, and carries the reply preview or the error message |
| FindWorkingModel.Handler | netlify/functions/find-working-model.js:3-52 | the loop with its `break` produces exactly the results of the first-success scan over the seven models, with status 200 and the JSON content type |
| FindWorkingModel.ScanNamesArePrefix | netlify/functions/find-working-model.js:16-45 | the results name a prefix of the candidate list, in order, and are never empty when there is a candidate |
| FindWorkingModel.ScanFailuresBeforeLast | netlify/functions/find-working-model.js:34 | every entry but the last is FAILED; a SUCCESS can only be last |
| FindWorkingModel.ScanFirstWorking | netlify/functions/find-working-model.js:27-34 | if model i is the first that answers there are i+1 entries, the last its success with the preview |
| FindWorkingModel.ScanNoneWorks | netlify/functions/find-working-model.js:36-44 | if no model answers there is one FAILED entry per model, with its error message |
| FindWorkingModel.ScanSucceedsIffSomeAnswers | netlify/functions/find-working-model.js:16-45 | some entry is a SUCCESS iff some model answers |
| FindWorkingModel.CandidatesReport | netlify/functions/find-working-model.js:4-12 | for the seven candidates: seven FAILED entries when none works, i+1 entries ending in SUCCESS when model i is the first that works |
| LessonClient.RequestFor | script.js:38-46 | a request is sent iff the trimmed subject, the trimmed topic and the untrimmed class level are non-empty, and it carries exactly those |
| LessonClient.DropLeadingBullet | script.js:77 | `replace(/^•/, '')` removes one bullet at the very start and nothing else |
| LessonClient.FormatObjectives | script.js:76-77 | the field is the bullet-joined objectives, less a bullet the first objective starts with |
| LessonClient.SummaryText | script.js:78 | a missing summary is written as "undefined", a `null` one as the empty string, a string as itself and an array as its elements joined by commas |
| LessonClient.ReadAnswer | script.js:53-78 | a network error or a non-ok status gives an error naming it; a truthy `error` is thrown as its string, or as the conversion TypeError when it cannot be converted; the objectives field is written iff the response is ok, parses to non-null data without a truthy error, and has an array of objectives that `join` can print; the summary is written too iff it can be printed, and otherwise the conversion TypeError follows |
| LessonClient.LessonForm.constructor | script.js:1-8 | the page starts with the button enabled, no error, and nothing generated |
| LessonClient.LessonForm.SetLoadingState | script.js:94-98 | loading disables the button and shows the spinner instead of the text; nothing else changes |
| LessonClient.LessonForm.HideError | script.js:142-147 | removes the error message if there is one; nothing else changes |
| LessonClient.LessonForm.ShowError | script.js:133-140 | the new message replaces the old, so exactly one is shown; nothing else changes |
| LessonClient.LessonForm.GenerateLessonPlan | script.js:37-92 | an incomplete form shows only the validation message; otherwise loading always ends, and the fields and section are filled with no error shown, or the objectives field is filled and the summary's conversion error is the one error shown, or the failure is the one error shown with the fields untouched |
| LessonClient.LessonForm.StartRequest | script.js:38-50 | the request is the validated inputs; an incomplete form gets only the validation message; a complete one has the button disabled, the spinner shown, the text hidden and no error while the request is out |
| LessonClient.LessonForm.SetInputs | script.js:38-40 | the user's edits change only the three inputs |
| LessonClient.LessonForm.Conclude | script.js:75-91 | entered with loading shown, the answer fills and shows the fields, or fills the objectives and then replaces the error, or only replaces the error; the `finally` always ends loading |
| LessonClient.PaddedFieldsAreTrimmed | script.js:38-39 | white space around the subject and around the topic, each its own, is not sent |
| LessonClient.BlankFieldRefused | script.js:43-46 | a subject or topic of only white space is refused |
| LessonClient.ThreeObjectivesShown | script.js:77 | three objectives show as a + "\n• " + b + "\n• " + c when the first does not start with a bullet |
| LessonClient.NullObjectiveShownEmpty | script.js:77 | objectives are shown as their strings, and a `null` objective as an empty line between two bullets |
| LessonClient.LeadingBulletRemoved | script.js:77 | a bullet the first objective starts with is the single character removed |
| LessonClient.HttpErrorNamesStatus | script.js:65-67 | a non-ok response is an error "HTTP error! status: " followed by digits that read back as the status |
| EndToEnd.Encode | script.js:58-62 | the posted body read by the endpoint has the three fields as strings |
| EndToEnd.EncodedRequestIsComplete | script.js:58-62 | a posted request with non-empty fields passes the endpoint's field check, its fields convert to strings, and its prompt quotes the fields as posted |
| EndToEnd.EncodedBodyIsComplete | script.js:53-63 | the page's POST is a complete request for the endpoint once its key is set |
| EndToEnd.ClientRequestsPassFieldCheck | script.js:43-63 | every request the page lets through is answered with 200 or 500, never 400 or 405 |
| EndToEnd.ClientPromptQuotesTrimmedFields | script.js:38-40 | the prompt for the page's request quotes the trimmed subject and topic and the class level as selected |
| EndToEnd.RefusalsShownAsStatus | script.js:65-67 | every non-200 response of the endpoint is 400, 405 or 500 and reaches the page only as "HTTP error! status: N" |
| EndToEnd.LessonsShownWithThreeObjectives | script.js:69-78 | a lesson the endpoint returns has three objectives; without a truthy `error`, the page writes them formatted iff `join` can print them, and otherwise shows the conversion error; the summary is written too iff it can be printed |

## Left out

- The Gemini SDK, `fetch` and the network are parameters. So are how a thrown SDK error reads and which reply a model gives. The API key the probe passes to the SDK is not modelled: the probe is only the oracle's answer per model name.
- `JSON.parse`, `Response.json()` and `JSON.stringify` are abstract. Parsing is an oracle to a parsed value or a syntax error, and response bodies are kept as structured values.
- JSON numbers are kept as the text JavaScript prints for them. Floating point is not modelled.
- Engine error messages use V8's wording. Other engines word them differently.
- FindWorkingModel.Preview: counts characters where `substring` counts UTF-16 code units. The two differ for replies with characters outside the Basic Multilingual Plane.
- The edit and lock buttons are not modelled. `lockEditing` re-registers its handler through `arguments.callee.caller`, which has no meaning outside a sloppy-mode JavaScript engine.
- Saving to `localStorage` (`saveLessonPlan`, `alert`) and the clock are not modelled.
- The diagnostic endpoints `debug-test.js`, `list-models.js`, `model-test.js` and `test-api.js` are not part of this model.
- Asynchrony is not modelled: `generateLessonPlan` runs to completion in one step. So the model does not capture a second click on the regenerate button while a request is in flight. That button is never disabled.
- The DOM is reduced to booleans and strings:
  - where the error message is inserted;
  - styling and scrolling;
  - the initial display of the spinner, which the style sheet sets.
- Logging to the console is not modelled.
