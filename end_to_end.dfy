/**
  The page and the endpoint together: what the page makes of each response the endpoint
  can give, and what the endpoint makes of each request the page can send.
*/
module EndToEnd {
  import opened Wrappers
  import opened JsText
  import opened JsonValue
  import GenerateLesson
  import LessonClient

  /** `JSON.stringify({ subject, topic, classLevel })` read back by the endpoint's `JSON.parse`. */
  function Encode(request: LessonClient.LessonRequest): (v: Json)
    ensures Member(v, "subject") == Defined(JString(request.subject))
    ensures Member(v, "topic") == Defined(JString(request.topic))
    ensures Member(v, "classLevel") == Defined(JString(request.classLevel))
  {
    var ms := [("subject", JString(request.subject)), ("topic", JString(request.topic)),
               ("classLevel", JString(request.classLevel))];
    assert ms[..2] == [ms[0], ms[1]] && ms[..2][..1] == [ms[0]];
    JObject(ms)
  }

  /** A request with three non-empty fields has all the fields the endpoint demands, its
      fields are strings the template literal prints, and its prompt quotes them as they are. */
  lemma EncodedRequestIsComplete(texts: GenerateLesson.PromptTexts,
                                 request: LessonClient.LessonRequest)
    requires request.subject != "" && request.topic != "" && request.classLevel != ""
    ensures GenerateLesson.FieldsPresent(Encode(request))
    ensures GenerateLesson.FieldsPrintable(Encode(request))
    ensures GenerateLesson.PromptFor(texts, Encode(request))
            == GenerateLesson.Prompt(texts, request.subject, request.topic, request.classLevel)
  {
  }

  /** A POST whose body parses to an encoded request with three non-empty fields is a
      complete request once the key is set. */
  lemma EncodedBodyIsComplete(body: string, apiKey: Option<string>, parse: string -> Parsed,
                              request: LessonClient.LessonRequest)
    requires request.subject != "" && request.topic != "" && request.classLevel != ""
    requires parse(body) == Parsed(Encode(request)) && GenerateLesson.KeyConfigured(apiKey)
    ensures GenerateLesson.CompleteRequest(GenerateLesson.Request("POST", Some(body)), apiKey, parse)
  {
    assert GenerateLesson.FieldsPresent(Encode(request));
  }

  /** Every request the page lets through has the three fields the endpoint demands, so it is
      never refused with 400 or 405. */
  lemma ClientRequestsPassFieldCheck(texts: GenerateLesson.PromptTexts, subject: string,
                                     topic: string, classLevel: string,
                                     body: string, apiKey: Option<string>,
                                     parse: string -> Parsed,
                                     generate: (string, string) -> GenerateLesson.Reply)
    requires LessonClient.RequestFor(subject, topic, classLevel).Some?
    requires parse(body) == Parsed(Encode(LessonClient.RequestFor(subject, topic, classLevel).value))
    requires GenerateLesson.KeyConfigured(apiKey)
    ensures GenerateLesson.Handle(texts, GenerateLesson.Request("POST", Some(body)),
                                  apiKey, parse, generate).statusCode in {200, 500}
  {
    var request := LessonClient.RequestFor(subject, topic, classLevel).value;
    EncodedBodyIsComplete(body, apiKey, parse, request);
    GenerateLesson.CompleteRequestsNotRefused(texts, GenerateLesson.Request("POST", Some(body)),
                                              apiKey, parse, generate);
  }

  /** The prompt for a request the page sends quotes the trimmed subject and topic and the
      class level as selected. */
  lemma ClientPromptQuotesTrimmedFields(texts: GenerateLesson.PromptTexts, subject: string,
                                        topic: string, classLevel: string)
    requires LessonClient.RequestFor(subject, topic, classLevel).Some?
    ensures GenerateLesson.PromptFor(texts, Encode(LessonClient.RequestFor(subject, topic, classLevel).value))
            == GenerateLesson.Prompt(texts, Trim(subject), Trim(topic), classLevel)
  {
    EncodedRequestIsComplete(texts, LessonClient.RequestFor(subject, topic, classLevel).value);
  }

  /** Whatever the endpoint refuses reaches the page as an error naming only the status code:
      the endpoint's own message and details are never shown. */
  lemma RefusalsShownAsStatus(texts: GenerateLesson.PromptTexts, request: GenerateLesson.Request,
                              apiKey: Option<string>, parse: string -> Parsed,
                              generate: (string, string) -> GenerateLesson.Reply, json: Parsed)
    requires GenerateLesson.Handle(texts, request, apiKey, parse, generate).statusCode != 200
    ensures var status := GenerateLesson.Handle(texts, request, apiKey, parse, generate).statusCode;
            && status in {400, 405, 500}
            && LessonClient.ReadAnswer(LessonClient.HttpResponse(status, json))
               == LessonClient.Failed(LessonClient.HttpErrorPrefix + NatToDecimal(status))
  {
  }

  /** A lesson the endpoint returns, read back by the page, has three objectives, and unless
      the lesson itself carries a truthy `error` the page writes them into the objectives field
      whenever `join` can print them; the summary follows when it too can be printed. */
  lemma LessonsShownWithThreeObjectives(texts: GenerateLesson.PromptTexts,
                                        request: GenerateLesson.Request, apiKey: Option<string>,
                                        parse: string -> Parsed,
                                        generate: (string, string) -> GenerateLesson.Reply,
                                        data: Json)
    requires GenerateLesson.Handle(texts, request, apiKey, parse, generate).body
             == GenerateLesson.LessonBody(data)
    requires data != JNull && !IsTruthy(Member(data, "error"))
    ensures |Member(data, "behavioralObjectives").value.elements| == 3
    ensures var answer := LessonClient.ReadAnswer(LessonClient.HttpResponse(200, Parsed(data)));
            var objectives := Member(data, "behavioralObjectives").value;
            && (!answer.Failed? <==> Convertible(objectives))
            && (!Convertible(objectives) ==> answer == LessonClient.Failed(CannotConvert))
            && (Convertible(objectives) ==>
                  answer.objectives == LessonClient.FormatObjectives(JoinPieces(objectives.elements)))
            && (answer.Populated? <==> Convertible(objectives) && Printable(Member(data, "summary")))
            && (answer.Populated? ==>
                  answer.summary == LessonClient.SummaryText(Member(data, "summary")))
  {
  }
}
