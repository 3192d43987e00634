/**
  The lesson endpoint (netlify/functions/generate-lesson.js) as a pure function
  from the request, the configured key and the two upstream services to the
  HTTP response it returns. `JSON.parse` and the generative model are oracles
  passed as functions; `JSON.stringify` of the response body is left abstract
  by keeping the body as a structured value.
*/
module GenerateLesson {
  import opened Wrappers
  import opened JsText
  import opened JsonValue

  /** The CORS headers sent with every response of the endpoint. */
  const CorsHeaders: seq<(string, string)> := [
    ("Access-Control-Allow-Origin", "*"),
    ("Access-Control-Allow-Methods", "POST, OPTIONS"),
    ("Access-Control-Allow-Headers", "Content-Type"),
    ("Content-Type", "application/json")
  ]

  const ModelName := "gemini-1.5-flash"

  const MethodNotAllowed := "Method Not Allowed"
  const MissingFields := "Missing required fields: subject, topic, classLevel"
  const FailureError := "Failed to generate lesson plan"
  const KeyNotConfigured := "Gemini API key not configured"
  const NotAnArray := "Invalid response: behavioralObjectives must be an array"
  const NotThreeObjectives := "Invalid response: behavioralObjectives must contain exactly 3 objectives"

  /** The TypeError texts of the V8 engine for the two reads of `null` the handler can hit. */
  const DestructureNull := "Cannot destructure property 'subject' of 'JSON.parse(...)' as it is null."
  const ReadObjectivesOfNull := "Cannot read properties of null (reading 'behavioralObjectives')"

  /** The event the function receives; `body` is `null` when the request has none. */
  datatype Request = Request(httpMethod: string, body: Option<string>)

  /** The response body before `JSON.stringify`. */
  datatype ResponseBody =
    | EmptyBody
    | ErrorBody(error: string)
    | FailureBody(error: string, details: string)
    | LessonBody(lesson: Json)

  datatype Response = Response(statusCode: nat, headers: seq<(string, string)>, body: ResponseBody)

  /** What `generateContent` followed by `response.text()` yields: the reply text, or the
      message of the error either call throws. */
  datatype Reply = ReplyText(text: string) | ReplyFailed(message: string)

  /** How the `try` block ends: by returning a response or by throwing an Error. */
  datatype Completion = Return(response: Response) | Throw(message: string)

  /** `process.env.GEMINI_API_KEY` is truthy: set and not empty. */
  predicate KeyConfigured(apiKey: Option<string>) {
    apiKey.Some? && apiKey.value != ""
  }

  /** `JSON.parse(event.body)` reads `null` as the text "null". */
  function BodyText(body: Option<string>): string {
    match body
    case None => "null"
    case Some(text) => text
  }

  /** The three fields the handler destructures are all truthy. */
  predicate FieldsPresent(fields: Json) {
    && IsTruthy(Member(fields, "subject"))
    && IsTruthy(Member(fields, "topic"))
    && IsTruthy(Member(fields, "classLevel"))
  }

  /** The generated lesson passes validation: `behavioralObjectives` is an array of three items. */
  predicate HasThreeObjectives(lesson: Json) {
    var objectives := Member(lesson, "behavioralObjectives");
    objectives.Defined? && objectives.value.JArray? && |objectives.value.elements| == 3
  }

  // ---------------------------------------------------------------------------
  // The prompt

  /** The fixed wording of the prompt around the spliced-in fields: the introduction before the
      labelled lines, the output format and requirements before the line that repeats the class
      level, and the rest after it. The handler is stated for any wording, so that its proofs do
      not depend on the long texts; `SourcePrompt` is the wording the endpoint sends. */
  datatype PromptTexts = PromptTexts(intro: string, requirements: string, closing: string)

  const SourcePrompt := PromptTexts(
    // intro
      "\n"
      + "You are an expert curriculum designer and educator. Based on the following information, create a comprehensive lesson plan:\n"
      + "\n",
    // requirements
      "\n"
      + "Generate the following content and return it as a valid JSON object with these exact keys:\n"
      + "- \"subject\": the subject name (string)\n"
      + "- \"topic\": the topic name (string) \n"
      + "- \"behavioralObjectives\": an array of exactly 3 specific, measurable behavioral objectives (array of strings)\n"
      + "- \"summary\": a comprehensive 2-3 paragraph lesson summary (string)\n"
      + "\n"
      + "Requirements for behavioral objectives:\n"
      + "- Each objective must start with an action verb (e.g., \"Students will be able to...\", \"Learners will...\")\n"
      + "- Objectives should be specific and measurable\n",
    // closing
      "- Each objective should be concise but complete\n"
      + "\n"
      + "Requirements for summary:\n"
      + "- Include key concepts to be covered\n"
      + "- Suggest teaching methods and activities\n"
      + "- Mention assessment approaches\n"
      + "- Should be 2-3 paragraphs total\n"
      + "\n"
      + "IMPORTANT: Return ONLY the JSON object. Do not include any explanatory text, markdown formatting, or code blocks. The response must be valid JSON that can be parsed directly.\n"
      + "\n"
      + "Example format:\n"
      + "{\"subject\": \"Mathematics\", \"topic\": \"Fractions\", \"behavioralObjectives\": [\"Students will be able to identify proper and improper fractions\", \"Students will be able to convert mixed numbers to improper fractions\", \"Students will be able to add fractions with like denominators\"], \"summary\": \"This lesson introduces students to the concept of fractions...\"}\n")

  /** The start of the requirement line that repeats the class level. */
  const LevelLine := "- Objectives should be appropriate for the "

  /** The prompt sent to the model: the fixed wording with the three fields spliced in,
      the class level twice. */
  function Prompt(texts: PromptTexts, subject: string, topic: string, classLevel: string): string {
    texts.intro + "Subject: " + subject + "\nTopic: " + topic + "\nClass/Grade Level: " + classLevel
    + "\n" + texts.requirements + LevelLine + classLevel + " level\n" + texts.closing
  }

  /** The three fields can be spliced into the template literal without a TypeError. */
  predicate FieldsPrintable(fields: Json) {
    && Printable(Member(fields, "subject"))
    && Printable(Member(fields, "topic"))
    && Printable(Member(fields, "classLevel"))
  }

  /** The prompt for the destructured fields, each converted as a template literal converts it. */
  function PromptFor(texts: PromptTexts, fields: Json): string
    requires FieldsPrintable(fields)
  {
    Prompt(texts, Interpolate(Member(fields, "subject")), Interpolate(Member(fields, "topic")),
           Interpolate(Member(fields, "classLevel")))
  }

  // ---------------------------------------------------------------------------
  // Fence cleaning

  const Fence := "```"
  const JsonFence := "```json"

  /** Removes the opening fence of `n` characters that `t` starts with, and the newline
      after it if there is one: `replace(/```json\n?/, '')` or `replace(/```\n?/, '')`, whose
      first match is at index 0. */
  function DropOpening(t: string, n: nat): (r: string)
    requires n <= |t|
    ensures n < |t| && t[n] == '\n' ==> r == t[n + 1..]
    ensures n == |t| || t[n] != '\n' ==> r == t[n..]
  {
    if n < |t| && t[n] == '\n' then t[n + 1..] else t[n..]
  }

  /** `replace(/```\n?$/, '')`: the pattern can match only at the very end, as "```\n"
      or as "```" (the two cannot both hold). */
  function DropClosing(u: string): (r: string)
    ensures |r| <= |u| && r == u[..|r|] && |u| - |r| in {0, 3, 4}
    ensures !EndsWith(u, Fence) && !EndsWith(u, Fence + "\n") ==> r == u
  {
    if EndsWith(u, Fence + "\n") then u[..|u| - 4]
    else if EndsWith(u, Fence) then u[..|u| - 3]
    else u
  }

  /** The two rewrites applied to an already trimmed reply: if it starts with ```json, or else
      with ```, that one opening fence goes, and then a closing fence at the very end. */
  function StripFence(t: string): (r: string)
    ensures exists i :: OccursAt(t, r, i)
    ensures !StartsWith(t, Fence) ==> r == t
  {
    if StartsWith(t, JsonFence) then
      var u := DropOpening(t, 7);
      var r := DropClosing(u);
      PieceOfPiece(t, u, r, |t| - |u|);
      r
    else if StartsWith(t, Fence) then
      var u := DropOpening(t, 3);
      var r := DropClosing(u);
      PieceOfPiece(t, u, r, |t| - |u|);
      r
    else
      assert OccursAt(t, t, 0);
      t
  }

  /** A prefix of a suffix of `t` is a piece of `t`. */
  lemma PieceOfPiece(t: string, u: string, r: string, k: nat)
    requires k <= |t| && u == t[k..]
    requires |r| <= |u| && r == u[..|r|]
    ensures OccursAt(t, r, k)
  {
    assert t[k..k + |r|] == u[..|r|];
  }

  /** The markdown fence stripper applied to the model's reply: trim, then strip one fence.
      The result is a piece of the trimmed reply and is not trimmed again. */
  function CleanFences(text: string): (r: string)
    ensures exists i :: OccursAt(Trim(text), r, i)
    ensures !StartsWith(Trim(text), Fence) ==> r == Trim(text)
  {
    StripFence(Trim(text))
  }

  // ---------------------------------------------------------------------------
  // The handler

  /** The checks after the second `JSON.parse`: `null`, then a missing or non-array
      `behavioralObjectives`, then the wrong number of objectives, are thrown; otherwise the
      parsed reply is returned unchanged. */
  function CheckLesson(data: Json): (c: Completion)
    ensures c.Return? <==> data != JNull && HasThreeObjectives(data)
    ensures c.Return? ==> c.response == Response(200, CorsHeaders, LessonBody(data))
  {
    if data == JNull then Throw(ReadObjectivesOfNull)
    else
      var objectives := Member(data, "behavioralObjectives");
      if !IsTruthy(objectives) || !objectives.value.JArray? then Throw(NotAnArray)
      else if |objectives.value.elements| != 3 then Throw(NotThreeObjectives)
      else Return(Response(200, CorsHeaders, LessonBody(data)))
  }

  /** The `try` block of the handler, in its order: the key check, the body parse, the field
      check, the prompt template (which throws on a field it cannot convert), the model call,
      fence cleaning, the reply parse and the lesson checks. */
  function TryGenerate(texts: PromptTexts, request: Request, apiKey: Option<string>,
                       parse: string -> Parsed, generate: (string, string) -> Reply): (c: Completion)
    ensures c.Return? ==>
      || c.response == Response(400, CorsHeaders, ErrorBody(MissingFields))
      || (c.response.statusCode == 200 && c.response.headers == CorsHeaders
          && c.response.body.LessonBody? && HasThreeObjectives(c.response.body.lesson))
  {
    if !KeyConfigured(apiKey) then Throw(KeyNotConfigured)
    else
      match parse(BodyText(request.body))
      case SyntaxError(message) => Throw(message)
      case Parsed(fields) =>
        if fields == JNull then Throw(DestructureNull)
        else if !FieldsPresent(fields) then
          Return(Response(400, CorsHeaders, ErrorBody(MissingFields)))
        else if !FieldsPrintable(fields) then Throw(CannotConvert)
        else
          match generate(ModelName, PromptFor(texts, fields))
          case ReplyFailed(message) => Throw(message)
          case ReplyText(text) =>
            match parse(CleanFences(text))
            case SyntaxError(message) => Throw(message)
            case Parsed(data) => CheckLesson(data)
  }

  /** `exports.handler`: the preflight and method checks, then the `try` block, whose every
      thrown error becomes a 500 response carrying the error's message as `details`. */
  function Handle(texts: PromptTexts, request: Request, apiKey: Option<string>,
                  parse: string -> Parsed, generate: (string, string) -> Reply): (r: Response)
    ensures r.headers == CorsHeaders
    ensures r.statusCode in {200, 400, 405, 500}
    ensures r.statusCode == 200 <==> request.httpMethod == "OPTIONS" || r.body.LessonBody?
    ensures r.body.LessonBody? ==> HasThreeObjectives(r.body.lesson)
    ensures r.statusCode == 500 ==> r.body.FailureBody? && r.body.error == FailureError
  {
    if request.httpMethod == "OPTIONS" then Response(200, CorsHeaders, EmptyBody)
    else if request.httpMethod != "POST" then Response(405, CorsHeaders, ErrorBody(MethodNotAllowed))
    else
      Respond(TryGenerate(texts, request, apiKey, parse, generate))
  }

  /** The `catch` block: a thrown error becomes a 500 carrying its message as `details`. */
  function Respond(c: Completion): (r: Response)
    ensures c.Return? ==> r == c.response
    ensures c.Throw? ==> r == Response(500, CorsHeaders, FailureBody(FailureError, c.message))
  {
    match c
    case Return(response) => response
    case Throw(message) => Response(500, CorsHeaders, FailureBody(FailureError, message))
  }

  // ---------------------------------------------------------------------------
  // Properties of the handler

  /** A preflight request is answered with 200, the CORS headers and an empty body,
      whatever else the request, the key or the upstream services are. */
  lemma PreflightAlwaysSucceeds(texts: PromptTexts, request: Request, apiKey: Option<string>,
                                parse: string -> Parsed, generate: (string, string) -> Reply)
    requires request.httpMethod == "OPTIONS"
    ensures Handle(texts, request, apiKey, parse, generate) == Response(200, CorsHeaders, EmptyBody)
  {
  }

  /** Any method other than OPTIONS and POST is refused with 405. */
  lemma OtherMethodsRejected(texts: PromptTexts, request: Request, apiKey: Option<string>,
                             parse: string -> Parsed, generate: (string, string) -> Reply)
    requires request.httpMethod != "OPTIONS" && request.httpMethod != "POST"
    ensures Handle(texts, request, apiKey, parse, generate)
            == Response(405, CorsHeaders, ErrorBody(MethodNotAllowed))
  {
  }

  /** Without a key a POST fails with 500 before its body is even read, so a request that also
      lacks its fields still gets the key error and not the 400. */
  lemma KeyCheckedBeforeFields(texts: PromptTexts, request: Request, apiKey: Option<string>,
                               parse: string -> Parsed, generate: (string, string) -> Reply)
    requires request.httpMethod == "POST" && !KeyConfigured(apiKey)
    ensures Handle(texts, request, apiKey, parse, generate)
            == Response(500, CorsHeaders, FailureBody(FailureError, KeyNotConfigured))
  {
  }

  /** With the key set, a body whose subject, topic or class level is falsy is refused with 400. */
  lemma MissingFieldsRejected(texts: PromptTexts, request: Request, apiKey: Option<string>,
                              fields: Json, parse: string -> Parsed,
                              generate: (string, string) -> Reply)
    requires request.httpMethod == "POST" && KeyConfigured(apiKey)
    requires parse(BodyText(request.body)) == Parsed(fields) && fields != JNull
    requires !FieldsPresent(fields)
    ensures Handle(texts, request, apiKey, parse, generate)
            == Response(400, CorsHeaders, ErrorBody(MissingFields))
  {
  }

  /** The request carries all three fields: a POST, with the key set, whose body parses to a
      non-null value with truthy `subject`, `topic` and `classLevel`. */
  predicate CompleteRequest(request: Request, apiKey: Option<string>, parse: string -> Parsed) {
    && request.httpMethod == "POST"
    && KeyConfigured(apiKey)
    && parse(BodyText(request.body)).Parsed?
    && parse(BodyText(request.body)).value != JNull
    && FieldsPresent(parse(BodyText(request.body)).value)
  }

  /** A complete request is neither refused for its method nor for its fields: it ends in a
      lesson or in a 500. */
  lemma CompleteRequestsNotRefused(texts: PromptTexts, request: Request, apiKey: Option<string>,
                                   parse: string -> Parsed, generate: (string, string) -> Reply)
    requires CompleteRequest(request, apiKey, parse)
    ensures Handle(texts, request, apiKey, parse, generate).statusCode in {200, 500}
  {
  }

  /** The model is consulted only for a complete, printable request, and only with its prompt:
      if two model services make any difference to the response, the request was complete and
      the two services answer its prompt differently. */
  lemma ModelCalledOnlyForCompleteRequests(texts: PromptTexts, request: Request,
                                           apiKey: Option<string>, parse: string -> Parsed,
                                           generate: (string, string) -> Reply,
                                           other: (string, string) -> Reply)
    requires Handle(texts, request, apiKey, parse, generate)
             != Handle(texts, request, apiKey, parse, other)
    ensures CompleteRequest(request, apiKey, parse)
    ensures FieldsPrintable(parse(BodyText(request.body)).value)
    ensures var fields := parse(BodyText(request.body)).value;
            generate(ModelName, PromptFor(texts, fields)) != other(ModelName, PromptFor(texts, fields))
  {
  }

  /** A complete request with a field the template literal cannot convert is a 500 carrying the
      engine's TypeError, and the model is never consulted. */
  lemma UnprintableFieldThrows(texts: PromptTexts, request: Request, apiKey: Option<string>,
                               parse: string -> Parsed, generate: (string, string) -> Reply)
    requires CompleteRequest(request, apiKey, parse)
    requires !FieldsPrintable(parse(BodyText(request.body)).value)
    ensures Handle(texts, request, apiKey, parse, generate)
            == Response(500, CorsHeaders, FailureBody(FailureError, CannotConvert))
  {
  }

  /** The request was complete and printable, the model answered `text`, and the cleaned text parsed to `data`. */
  predicate ReplyParsedTo(texts: PromptTexts, request: Request, apiKey: Option<string>,
                          parse: string -> Parsed, generate: (string, string) -> Reply,
                          text: string, data: Json) {
    && CompleteRequest(request, apiKey, parse)
    && FieldsPrintable(parse(BodyText(request.body)).value)
    && generate(ModelName, PromptFor(texts, parse(BodyText(request.body)).value)) == ReplyText(text)
    && parse(CleanFences(text)) == Parsed(data)
  }

  /** Once the reply has been parsed, the response is what the lesson checks make of it. */
  lemma ReplyDecidedByLessonCheck(texts: PromptTexts, request: Request, apiKey: Option<string>,
                                  parse: string -> Parsed, generate: (string, string) -> Reply,
                                  text: string, data: Json)
    requires ReplyParsedTo(texts, request, apiKey, parse, generate, text, data)
    ensures Handle(texts, request, apiKey, parse, generate) == Respond(CheckLesson(data))
  {
  }

  /** Once the reply has been parsed to `data`, the response is 200 exactly when `data` has
      three objectives, and its body is then `data` unchanged. */
  lemma SucceedsExactlyWithThreeObjectives(texts: PromptTexts, request: Request,
                                           apiKey: Option<string>, parse: string -> Parsed,
                                           generate: (string, string) -> Reply,
                                           text: string, data: Json)
    requires ReplyParsedTo(texts, request, apiKey, parse, generate, text, data)
    ensures Handle(texts, request, apiKey, parse, generate).statusCode == 200
            <==> data != JNull && HasThreeObjectives(data)
    ensures Handle(texts, request, apiKey, parse, generate).statusCode == 200
            ==> Handle(texts, request, apiKey, parse, generate).body == LessonBody(data)
  {
    ReplyDecidedByLessonCheck(texts, request, apiKey, parse, generate, text, data);
  }

  /** A parsed reply without an array of objectives is a 500 saying so. */
  lemma ObjectivesMustBeAnArray(texts: PromptTexts, request: Request, apiKey: Option<string>,
                                parse: string -> Parsed, generate: (string, string) -> Reply,
                                text: string, data: Json)
    requires ReplyParsedTo(texts, request, apiKey, parse, generate, text, data)
    requires data != JNull
    requires !(Member(data, "behavioralObjectives").Defined?
               && Member(data, "behavioralObjectives").value.JArray?)
    ensures Handle(texts, request, apiKey, parse, generate)
            == Response(500, CorsHeaders, FailureBody(FailureError, NotAnArray))
  {
    ReplyDecidedByLessonCheck(texts, request, apiKey, parse, generate, text, data);
  }

  /** A parsed reply whose objectives are an array of other than three items is a 500 saying so. */
  lemma ObjectivesMustBeThree(texts: PromptTexts, request: Request, apiKey: Option<string>,
                              parse: string -> Parsed, generate: (string, string) -> Reply,
                              text: string, data: Json)
    requires ReplyParsedTo(texts, request, apiKey, parse, generate, text, data)
    requires Member(data, "behavioralObjectives").Defined?
    requires Member(data, "behavioralObjectives").value.JArray?
    requires |Member(data, "behavioralObjectives").value.elements| != 3
    ensures Handle(texts, request, apiKey, parse, generate)
            == Response(500, CorsHeaders, FailureBody(FailureError, NotThreeObjectives))
  {
    ReplyDecidedByLessonCheck(texts, request, apiKey, parse, generate, text, data);
    WrongCountThrown(data);
  }

  /** The lesson checks throw the exactly-3 error for an array of objectives of another length. */
  lemma WrongCountThrown(data: Json)
    requires Member(data, "behavioralObjectives").Defined?
    requires Member(data, "behavioralObjectives").value.JArray?
    requires |Member(data, "behavioralObjectives").value.elements| != 3
    ensures CheckLesson(data) == Throw(NotThreeObjectives)
  {
    assert Truthy(Member(data, "behavioralObjectives").value);
  }

  // ---------------------------------------------------------------------------
  // Properties of the prompt

  lemma OccursBetween(before: string, part: string, after: string)
    ensures OccursAt(before + part + after, part, |before|)
  {
    assert (before + part + after)[|before|..|before| + |part|] == part;
  }

  /** The prompt with every fixed piece a parameter, so that the proofs below never look
      inside a literal. */
  function Template(intro: string, a: string, s: string, b: string, t: string, d: string,
                    c: string, e: string, requirements: string, line: string, f: string,
                    closing: string): string
  {
    intro + a + s + b + t + d + c + e + requirements + line + c + f + closing
  }

  lemma TemplateLabelledLines(intro: string, a: string, s: string, b: string, t: string, d: string,
                              c: string, e: string, requirements: string, line: string, f: string,
                              closing: string)
    ensures OccursAt(Template(intro, a, s, b, t, d, c, e, requirements, line, f, closing),
                     a + s + b + t + d + c + e, |intro|)
  {
    assert Template(intro, a, s, b, t, d, c, e, requirements, line, f, closing)
           == intro + (a + s + b + t + d + c + e) + (requirements + line + c + f + closing);
    OccursBetween(intro, a + s + b + t + d + c + e, requirements + line + c + f + closing);
  }

  lemma TemplateFirstLevel(intro: string, a: string, s: string, b: string, t: string, d: string,
                           c: string, e: string, requirements: string, line: string, f: string,
                           closing: string)
    ensures OccursAt(Template(intro, a, s, b, t, d, c, e, requirements, line, f, closing),
                     c, |intro + a + s + b + t + d|)
  {
    assert Template(intro, a, s, b, t, d, c, e, requirements, line, f, closing)
           == (intro + a + s + b + t + d) + c + (e + requirements + line + c + f + closing);
    OccursBetween(intro + a + s + b + t + d, c, e + requirements + line + c + f + closing);
  }

  lemma TemplateLevelLine(intro: string, a: string, s: string, b: string, t: string, d: string,
                          c: string, e: string, requirements: string, line: string, f: string,
                          closing: string)
    ensures OccursAt(Template(intro, a, s, b, t, d, c, e, requirements, line, f, closing),
                     line + c + f, |intro + a + s + b + t + d + c + e + requirements|)
  {
    assert Template(intro, a, s, b, t, d, c, e, requirements, line, f, closing)
           == (intro + a + s + b + t + d + c + e + requirements) + (line + c + f) + closing;
    OccursBetween(intro + a + s + b + t + d + c + e + requirements, line + c + f, closing);
  }

  lemma TemplateSecondLevel(intro: string, a: string, s: string, b: string, t: string, d: string,
                            c: string, e: string, requirements: string, line: string, f: string,
                            closing: string)
    ensures OccursAt(Template(intro, a, s, b, t, d, c, e, requirements, line, f, closing),
                     c, |intro + a + s + b + t + d + c + e + requirements + line|)
  {
    assert Template(intro, a, s, b, t, d, c, e, requirements, line, f, closing)
           == (intro + a + s + b + t + d + c + e + requirements + line) + c + (f + closing);
    OccursBetween(intro + a + s + b + t + d + c + e + requirements + line, c, f + closing);
  }

  /** The prompt quotes the subject, the topic and the class level verbatim on consecutive
      labelled lines right after the introduction, and the class level once more, later, in
      the line on the level of the objectives. */
  ghost predicate QuotesFields(texts: PromptTexts, subject: string, topic: string, classLevel: string) {
    var prompt := Prompt(texts, subject, topic, classLevel);
    && OccursAt(prompt, "Subject: " + subject + "\nTopic: " + topic + "\nClass/Grade Level: "
                        + classLevel + "\n", |texts.intro|)
    && (exists i :: OccursAt(prompt, LevelLine + classLevel + " level\n", i))
    && (exists i, j :: i + |classLevel| < j && OccursAt(prompt, classLevel, i)
                       && OccursAt(prompt, classLevel, j))
  }

  /** Whatever the wording, the prompt quotes the three fields as `QuotesFields` says. */
  lemma PromptQuotesFields(texts: PromptTexts, subject: string, topic: string, classLevel: string)
    ensures QuotesFields(texts, subject, topic, classLevel)
  {
    var args := (texts.intro, "Subject: ", subject, "\nTopic: ", topic, "\nClass/Grade Level: ",
                 classLevel, "\n", texts.requirements, LevelLine, " level\n", texts.closing);
    assert Prompt(texts, subject, topic, classLevel)
           == Template(args.0, args.1, args.2, args.3, args.4, args.5, args.6, args.7, args.8,
                       args.9, args.10, args.11);
    TemplateLabelledLines(args.0, args.1, args.2, args.3, args.4, args.5, args.6, args.7, args.8,
                          args.9, args.10, args.11);
    TemplateFirstLevel(args.0, args.1, args.2, args.3, args.4, args.5, args.6, args.7, args.8,
                       args.9, args.10, args.11);
    TemplateLevelLine(args.0, args.1, args.2, args.3, args.4, args.5, args.6, args.7, args.8,
                      args.9, args.10, args.11);
    TemplateSecondLevel(args.0, args.1, args.2, args.3, args.4, args.5, args.6, args.7, args.8,
                        args.9, args.10, args.11);
  }

  /** The same for the wording the endpoint sends: its prompt has the labelled lines, the level
      line and both occurrences of the class level. */
  lemma SourcePromptQuotesFields(subject: string, topic: string, classLevel: string)
    ensures QuotesFields(SourcePrompt, subject, topic, classLevel)
  {
    PromptQuotesFields(SourcePrompt, subject, topic, classLevel);
  }

  // ---------------------------------------------------------------------------
  // Properties of fence cleaning

  /** A ```json fence with a newline, and a closing fence, are both removed, and nothing else. */
  lemma StripJsonFence(inner: string)
    ensures StripFence(JsonFence + "\n" + inner + Fence) == inner
  {
    var w := JsonFence + "\n" + inner + Fence;
    assert w == JsonFence + ("\n" + inner + Fence);
    PrefixOfConcat(JsonFence, "\n" + inner + Fence);
    assert w[7] == '\n';
    assert w[8..] == inner + Fence;
    StripClosingFence(inner);
  }

  /** A bare ``` fence with a newline, and a closing fence, are both removed, and nothing else. */
  lemma StripBareFence(inner: string)
    ensures StripFence(Fence + "\n" + inner + Fence) == inner
  {
    var w := Fence + "\n" + inner + Fence;
    assert w == Fence + ("\n" + inner + Fence);
    PrefixOfConcat(Fence, "\n" + inner + Fence);
    assert !StartsWith(w, JsonFence) by { assert w[3] == '\n'; }
    assert w[4..] == inner + Fence;
    StripClosingFence(inner);
  }

  /** A closing fence at the very end is removed. */
  lemma StripClosingFence(inner: string)
    ensures DropClosing(inner + Fence) == inner
  {
    var u := inner + Fence;
    SuffixOfConcat(inner, Fence);
    assert !EndsWith(u, Fence + "\n") by { assert u[|u| - 1] == '`'; }
    assert u[..|u| - 3] == inner;
  }

  /** With whitespace around it, a reply wrapped in a ```json fence is cleaned to exactly what
      is between the fences: the inner text is neither trimmed nor unwrapped further. */
  lemma CleanFencesUnwrapsJsonFence(before: string, inner: string, after: string)
    requires AllWhitespace(before) && AllWhitespace(after)
    ensures CleanFences(before + JsonFence + "\n" + inner + Fence + after) == inner
  {
    var w := JsonFence + "\n" + inner + Fence;
    assert before + JsonFence + "\n" + inner + Fence + after == before + w + after;
    assert w[0] == '`' && w[|w| - 1] == '`';
    TrimRemovesMargins(before, w, after);
    StripJsonFence(inner);
  }

  /** The same for a bare ``` fence. */
  lemma CleanFencesUnwrapsBareFence(before: string, inner: string, after: string)
    requires AllWhitespace(before) && AllWhitespace(after)
    ensures CleanFences(before + Fence + "\n" + inner + Fence + after) == inner
  {
    var w := Fence + "\n" + inner + Fence;
    assert before + Fence + "\n" + inner + Fence + after == before + w + after;
    assert w[0] == '`' && w[|w| - 1] == '`';
    TrimRemovesMargins(before, w, after);
    StripBareFence(inner);
  }

  /** An opening fence without a closing one loses only the opening fence: the closing fence
      is removed only when it is at the very end. */
  lemma CleanFencesKeepsUnclosedTail(before: string, inner: string, after: string)
    requires AllWhitespace(before) && AllWhitespace(after)
    requires inner != [] && !IsJsWhitespace(inner[|inner| - 1]) && !EndsWith(inner, Fence)
    ensures CleanFences(before + JsonFence + "\n" + inner + after) == inner
  {
    var w := JsonFence + "\n" + inner;
    assert before + JsonFence + "\n" + inner + after == before + w + after;
    assert w[0] == '`' && w[|w| - 1] == inner[|inner| - 1];
    TrimRemovesMargins(before, w, after);
    StripUnclosedFence(inner);
  }

  /** An opening ```json fence and its newline go; a tail that is not a fence stays. */
  lemma StripUnclosedFence(inner: string)
    requires inner != [] && inner[|inner| - 1] != '\n' && !EndsWith(inner, Fence)
    ensures StripFence(JsonFence + "\n" + inner) == inner
  {
    var w := JsonFence + "\n" + inner;
    assert w == JsonFence + ("\n" + inner);
    PrefixOfConcat(JsonFence, "\n" + inner);
    assert w[7] == '\n' && w[8..] == inner;
    assert !EndsWith(inner, Fence + "\n") by { assert inner[|inner| - 1] != '\n'; }
  }

  /** The newline after an opening ```json fence is optional: without it the fence alone goes. */
  lemma StripJsonFenceNoNewline(inner: string)
    requires inner == [] || inner[0] != '\n'
    ensures StripFence(JsonFence + inner + Fence) == inner
  {
    var u := inner + Fence;
    var w := JsonFence + u;
    assert JsonFence + inner + Fence == w;
    PrefixOfConcat(JsonFence, u);
    assert w[7..] == u;
    assert DropOpening(w, 7) == u by { assert w[7] == u[0]; }
    StripClosingFence(inner);
  }

  /** The same for a bare ``` fence, when what follows it does not make it a ```json fence. */
  lemma StripBareFenceNoNewline(inner: string)
    requires inner == [] || inner[0] != '\n'
    requires !StartsWith(inner, "json")
    ensures StripFence(Fence + inner + Fence) == inner
  {
    var w := Fence + inner + Fence;
    assert w == Fence + (inner + Fence);
    PrefixOfConcat(Fence, inner + Fence);
    assert !StartsWith(w, JsonFence) by {
      if |inner| >= 4 {
        assert w[..7][3..] == inner[..4];
      } else if 7 <= |w| {
        assert w[..7][3 + |inner|] == '`';
      }
    }
    assert w[3] != '\n' by { assert w[3] == (inner + Fence)[0]; }
    assert w[3..] == inner + Fence;
    StripClosingFence(inner);
  }

  /** An opening ``` fence and its newline go; a tail that is not a fence stays. */
  lemma StripUnclosedBareFence(inner: string)
    requires inner != [] && inner[|inner| - 1] != '\n' && !EndsWith(inner, Fence)
    ensures StripFence(Fence + "\n" + inner) == inner
  {
    var w := Fence + "\n" + inner;
    assert w == Fence + ("\n" + inner);
    PrefixOfConcat(Fence, "\n" + inner);
    assert !StartsWith(w, JsonFence) by { assert w[3] == '\n'; }
    assert w[3] == '\n' && w[4..] == inner;
    assert !EndsWith(inner, Fence + "\n") by { assert inner[|inner| - 1] != '\n'; }
  }

  /** An opening ```json fence with no newline after it goes; a tail that is not a fence stays. */
  lemma StripUnclosedJsonFenceNoNewline(inner: string)
    requires inner != [] && inner[0] != '\n' && inner[|inner| - 1] != '\n'
    requires !EndsWith(inner, Fence)
    ensures StripFence(JsonFence + inner) == inner
  {
    var w := JsonFence + inner;
    PrefixOfConcat(JsonFence, inner);
    assert w[7] == inner[0] && w[7..] == inner;
    assert !EndsWith(inner, Fence + "\n") by { assert inner[|inner| - 1] != '\n'; }
  }

  /** The same for a bare ``` fence, when what follows it does not make it a ```json fence. */
  lemma StripUnclosedBareFenceNoNewline(inner: string)
    requires inner != [] && inner[0] != '\n' && inner[|inner| - 1] != '\n'
    requires !EndsWith(inner, Fence) && !StartsWith(inner, "json")
    ensures StripFence(Fence + inner) == inner
  {
    var w := Fence + inner;
    PrefixOfConcat(Fence, inner);
    assert !StartsWith(w, JsonFence) by {
      if |inner| >= 4 {
        assert w[..7][3..] == inner[..4];
      }
    }
    assert w[3] == inner[0] && w[3..] == inner;
    assert !EndsWith(inner, Fence + "\n") by { assert inner[|inner| - 1] != '\n'; }
  }

  /** A reply that does not start with a fence is only trimmed. */
  lemma CleanFencesOnlyTrimsUnfenced(before: string, reply: string, after: string)
    requires AllWhitespace(before) && AllWhitespace(after) && IsTrimmed(reply)
    requires !StartsWith(reply, Fence)
    ensures CleanFences(before + reply + after) == reply
  {
    TrimRemovesMargins(before, reply, after);
  }
}
