/**
  The browser side (script.js): validating the form, asking the endpoint for a lesson plan,
  turning the answer into the text of the two fields or into an error message, and the
  state of the page while that happens. The endpoint call is an oracle `fetch` from the
  request to what `fetch` and `response.json()` yield.
*/
module LessonClient {
  import opened Wrappers
  import opened JsText
  import opened JsonValue

  const IncompleteMessage := "Please fill in all fields before generating."
  const FailurePrefix := "Failed to generate lesson plan: "
  const HttpErrorPrefix := "HTTP error! status: "

  /** The separator the objectives are joined with: a newline and a bullet. */
  const Bullet := "\n\U{2022} "

  /** The V8 TypeError texts for the reads that fail on a malformed answer. */
  const ReadErrorOfNull := "Cannot read properties of null (reading 'error')"
  const JoinOfUndefined := "Cannot read properties of undefined (reading 'join')"
  const JoinOfNull := "Cannot read properties of null (reading 'join')"
  const JoinNotAFunction := "data.behavioralObjectives.join is not a function"

  /** The body posted to the endpoint, before `JSON.stringify`. */
  datatype LessonRequest = LessonRequest(subject: string, topic: string, classLevel: string)

  /** What the request yields: a rejected `fetch` with its message, or a response with its
      status code and what `response.json()` makes of its body. */
  datatype FetchOutcome =
    | NetworkError(message: string)
    | HttpResponse(status: nat, json: Parsed)
  {
    /** `response.ok`. */
    predicate Ok() requires HttpResponse? {
      200 <= status <= 299
    }
  }

  /** How the `try` block ends: with the text of the two fields; with the objectives field
      written and then an error thrown while writing the summary; or by throwing an error
      with the given message before either field is written. */
  datatype Outcome =
    | Populated(objectives: string, summary: string)
    | ObjectivesOnly(objectives: string, message: string)
    | Failed(message: string)

  /** The validation step: subject and topic are trimmed, the class level is not, and all
      three must then be non-empty. */
  function RequestFor(subject: string, topic: string, classLevel: string): (r: Option<LessonRequest>)
    ensures r.Some? <==> Trim(subject) != "" && Trim(topic) != "" && classLevel != ""
    ensures r.Some? ==> r.value == LessonRequest(Trim(subject), Trim(topic), classLevel)
  {
    var s := Trim(subject);
    var t := Trim(topic);
    if s == "" || t == "" || classLevel == "" then None else Some(LessonRequest(s, t, classLevel))
  }

  /** `replace(/^•/, '')`: drops one bullet at the very start, if there is one. */
  function DropLeadingBullet(s: string): (r: string)
    ensures s != [] && s[0] == '\U{2022}' ==> "\U{2022}" + r == s
    ensures s == [] || s[0] != '\U{2022}' ==> r == s
  {
    if s != [] && s[0] == '\U{2022}' then s[1..] else s
  }

  /** The text of the objectives field: the objectives joined by `Bullet`, less a bullet the
      first objective itself starts with. */
  function FormatObjectives(items: seq<string>): (r: string)
    ensures items == [] ==> r == ""
    ensures items != [] && (items[0] == [] || items[0][0] != '\U{2022}') ==> r == Join(items, Bullet)
    ensures items != [] && items[0] != [] && items[0][0] == '\U{2022}'
            ==> "\U{2022}" + r == Join(items, Bullet)
  {
    var joined := Join(items, Bullet);
    assert items != [] && items[0] != [] ==> joined[..|items[0]|][0] == joined[0];
    DropLeadingBullet(joined)
  }

  /** `data.summary` written into a text area: `null` becomes the empty string and a missing
      value the text "undefined". */
  function SummaryText(p: Property): (r: string)
    requires Printable(p)
    ensures p.Undefined? ==> r == "undefined"
    ensures p == Defined(JNull) ==> r == ""
    ensures p.Defined? && p.value.JString? ==> r == p.value.s
    ensures p.Defined? && p.value.JArray? ==> r == Join(JoinPieces(p.value.elements), ",")
  {
    match p
    case Undefined => "undefined"
    case Defined(v) => if v == JNull then "" else ToJsString(v)
  }

  /** The answer parsed to an object without a truthy `error` whose objectives are an array
      that `join` can print: the objectives field gets written. */
  predicate ObjectivesWritten(outcome: FetchOutcome) {
    && outcome.HttpResponse? && outcome.Ok() && outcome.json.Parsed?
    && outcome.json.value != JNull
    && !IsTruthy(Member(outcome.json.value, "error"))
    && Member(outcome.json.value, "behavioralObjectives").Defined?
    && Member(outcome.json.value, "behavioralObjectives").value.JArray?
    && Convertible(Member(outcome.json.value, "behavioralObjectives").value)
  }

  /** The `try` block after `fetch`: a failed response, an answer that does not parse, an
      answer with a truthy `error` and an answer without an array of objectives are all
      errors; otherwise the objectives and the summary are what the fields are set to,
      unless a value among them is an object that ToString cannot convert. */
  function ReadAnswer(outcome: FetchOutcome): (r: Outcome)
    ensures outcome.NetworkError? ==> r == Failed(outcome.message)
    ensures outcome.HttpResponse? && !outcome.Ok()
            ==> r == Failed(HttpErrorPrefix + NatToDecimal(outcome.status))
    ensures !r.Failed? <==> ObjectivesWritten(outcome)
    ensures r.Populated? <==>
            ObjectivesWritten(outcome) && Printable(Member(outcome.json.value, "summary"))
    ensures !r.Failed? ==>
      r.objectives
      == FormatObjectives(JoinPieces(Member(outcome.json.value, "behavioralObjectives").value.elements))
    ensures r.Populated? ==> r.summary == SummaryText(Member(outcome.json.value, "summary"))
    ensures r.ObjectivesOnly? ==> r.message == CannotConvert
    ensures outcome.HttpResponse? && outcome.Ok() && outcome.json.Parsed?
            && IsTruthy(Member(outcome.json.value, "error"))
            ==> r == Failed(if Convertible(Member(outcome.json.value, "error").value)
                            then ToJsString(Member(outcome.json.value, "error").value)
                            else CannotConvert)
  {
    match outcome
    case NetworkError(message) => Failed(message)
    case HttpResponse(status, json) =>
      if !outcome.Ok() then Failed(HttpErrorPrefix + NatToDecimal(status))
      else
        match json
        case SyntaxError(message) => Failed(message)
        case Parsed(data) =>
          if data == JNull then Failed(ReadErrorOfNull)
          else
            var error := Member(data, "error");
            if IsTruthy(error) then
              Failed(if Convertible(error.value) then ToJsString(error.value) else CannotConvert)
            else
              match Member(data, "behavioralObjectives")
              case Undefined => Failed(JoinOfUndefined)
              case Defined(objectives) =>
                if objectives == JNull then Failed(JoinOfNull)
                else if !objectives.JArray? then Failed(JoinNotAFunction)
                else if !Convertible(objectives) then Failed(CannotConvert)
                else
                  var shown := FormatObjectives(JoinPieces(objectives.elements));
                  var summary := Member(data, "summary");
                  if Printable(summary) then Populated(shown, SummaryText(summary))
                  else ObjectivesOnly(shown, CannotConvert)
  }

  /** The form, the button and the generated section of the page. At most one error message
      is shown, and the button is disabled exactly while its spinner shows instead of its text. */
  class LessonForm {
    var subject: string
    var topic: string
    var classLevel: string
    var objectives: string
    var summary: string
    var contentShown: bool
    var buttonDisabled: bool
    var textShown: bool
    var spinnerShown: bool
    /** The error messages on the page, in document order. */
    var errors: seq<string>

    predicate Valid()
      reads this
    {
      && |errors| <= 1
      && spinnerShown == buttonDisabled
      && textShown == !buttonDisabled
    }

    /** The page as loaded, with the three inputs as the user filled them in. */
    constructor (subject: string, topic: string, classLevel: string)
      ensures Valid()
      ensures this.subject == subject && this.topic == topic && this.classLevel == classLevel
      ensures objectives == "" && summary == "" && !contentShown
      ensures !buttonDisabled && errors == []
    {
      this.subject := subject;
      this.topic := topic;
      this.classLevel := classLevel;
      objectives := "";
      summary := "";
      contentShown := false;
      buttonDisabled := false;
      textShown := true;
      spinnerShown := false;
      errors := [];
    }

    /** The user edits the three inputs; nothing else on the page changes. */
    method SetInputs(subject: string, topic: string, classLevel: string)
      modifies this
      ensures this.subject == subject && this.topic == topic && this.classLevel == classLevel
      ensures objectives == old(objectives) && summary == old(summary)
      ensures contentShown == old(contentShown) && errors == old(errors)
      ensures buttonDisabled == old(buttonDisabled) && textShown == old(textShown)
      ensures spinnerShown == old(spinnerShown)
      ensures old(Valid()) ==> Valid()
    {
      this.subject := subject;
      this.topic := topic;
      this.classLevel := classLevel;
    }

    /** `setLoadingState`: the button, its text and its spinner follow the flag. */
    method SetLoadingState(isLoading: bool)
      modifies this
      ensures buttonDisabled == isLoading && textShown == !isLoading && spinnerShown == isLoading
      ensures subject == old(subject) && topic == old(topic) && classLevel == old(classLevel)
      ensures objectives == old(objectives) && summary == old(summary)
      ensures contentShown == old(contentShown) && errors == old(errors)
      ensures |errors| <= 1 ==> Valid()
    {
      buttonDisabled := isLoading;
      textShown := !isLoading;
      spinnerShown := isLoading;
    }

    /** `hideError`: removes the first error message, if there is one. */
    method HideError()
      modifies this
      ensures errors == if old(errors) == [] then [] else old(errors)[1..]
      ensures subject == old(subject) && topic == old(topic) && classLevel == old(classLevel)
      ensures objectives == old(objectives) && summary == old(summary)
      ensures contentShown == old(contentShown) && buttonDisabled == old(buttonDisabled)
      ensures textShown == old(textShown) && spinnerShown == old(spinnerShown)
      ensures old(Valid()) ==> errors == [] && Valid()
    {
      if errors != [] {
        errors := errors[1..];
      }
    }

    /** `showError`: the message replaces the one shown, so there is still at most one. */
    method ShowError(message: string)
      requires Valid()
      modifies this
      ensures errors == [message]
      ensures subject == old(subject) && topic == old(topic) && classLevel == old(classLevel)
      ensures objectives == old(objectives) && summary == old(summary)
      ensures contentShown == old(contentShown) && buttonDisabled == old(buttonDisabled)
      ensures textShown == old(textShown) && spinnerShown == old(spinnerShown)
      ensures Valid()
    {
      HideError();
      errors := errors + [message];
    }

    /** `generateLessonPlan`, run to completion. An incomplete form only gets the validation
        message; otherwise the request is sent with loading shown and the old error removed,
        the answer fills the fields or replaces the error message (after filling the objectives
        field when only the summary cannot be written), and loading always ends. */
    method GenerateLessonPlan(fetch: LessonRequest -> FetchOutcome)
      requires Valid()
      modifies this
      ensures Valid()
      ensures subject == old(subject) && topic == old(topic) && classLevel == old(classLevel)
      ensures RequestFor(old(subject), old(topic), old(classLevel)).None? ==>
        && errors == [IncompleteMessage]
        && buttonDisabled == old(buttonDisabled)
        && objectives == old(objectives) && summary == old(summary)
        && contentShown == old(contentShown)
      ensures RequestFor(old(subject), old(topic), old(classLevel)).Some? ==>
        var request := RequestFor(old(subject), old(topic), old(classLevel)).value;
        && !buttonDisabled
        && match ReadAnswer(fetch(request))
           case Populated(o, s) =>
             objectives == o && summary == s && contentShown && errors == []
           case ObjectivesOnly(o, m) =>
             && objectives == o && errors == [FailurePrefix + m]
             && summary == old(summary) && contentShown == old(contentShown)
           case Failed(m) =>
             && errors == [FailurePrefix + m]
             && objectives == old(objectives) && summary == old(summary)
             && contentShown == old(contentShown)
    {
      var request := StartRequest();
      if request.Some? {
        Conclude(ReadAnswer(fetch(request.value)));
      }
    }

    /** The part of `generateLessonPlan` before the request goes out: an incomplete form gets
        the validation message and nothing else changes; a complete one shows loading and has
        its error message removed while the request is out. */
    method StartRequest() returns (request: Option<LessonRequest>)
      requires Valid()
      modifies this
      ensures Valid()
      ensures request == RequestFor(old(subject), old(topic), old(classLevel))
      ensures subject == old(subject) && topic == old(topic) && classLevel == old(classLevel)
      ensures objectives == old(objectives) && summary == old(summary)
      ensures contentShown == old(contentShown)
      ensures request.None? ==> errors == [IncompleteMessage] && buttonDisabled == old(buttonDisabled)
      ensures request.Some? ==> buttonDisabled && spinnerShown && !textShown && errors == []
    {
      request := RequestFor(subject, topic, classLevel);
      if request.None? {
        ShowError(IncompleteMessage);
        return;
      }
      SetLoadingState(true);
      HideError();
    }

    /** The end of the `try` block, its `catch` and its `finally`: the answer fills the fields
        and shows them, or its error replaces the error message, after the objectives field
        when it was the summary that could not be written; either way loading ends. */
    method Conclude(outcome: Outcome)
      requires Valid() && buttonDisabled
      modifies this
      ensures Valid() && !buttonDisabled
      ensures subject == old(subject) && topic == old(topic) && classLevel == old(classLevel)
      ensures match outcome
              case Populated(o, s) =>
                objectives == o && summary == s && contentShown && errors == old(errors)
              case ObjectivesOnly(o, m) =>
                && objectives == o && errors == [FailurePrefix + m]
                && summary == old(summary) && contentShown == old(contentShown)
              case Failed(m) =>
                && errors == [FailurePrefix + m]
                && objectives == old(objectives) && summary == old(summary)
                && contentShown == old(contentShown)
    {
      match outcome {
        case Populated(o, s) =>
          objectives := o;
          summary := s;
          contentShown := true;
        case ObjectivesOnly(o, m) =>
          objectives := o;
          ShowError(FailurePrefix + m);
        case Failed(m) =>
          ShowError(FailurePrefix + m);
      }
      SetLoadingState(false);
    }
  }

  // ---------------------------------------------------------------------------
  // Properties

  /** Whitespace around the subject and the topic, each with its own, is dropped before they
      are sent. */
  lemma PaddedFieldsAreTrimmed(before1: string, subject: string, after1: string,
                               before2: string, topic: string, after2: string,
                               classLevel: string)
    requires AllWhitespace(before1) && AllWhitespace(after1) && IsTrimmed(subject)
    requires AllWhitespace(before2) && AllWhitespace(after2) && IsTrimmed(topic)
    requires subject != [] && topic != [] && classLevel != []
    ensures RequestFor(before1 + subject + after1, before2 + topic + after2, classLevel)
            == Some(LessonRequest(subject, topic, classLevel))
  {
    TrimRemovesMargins(before1, subject, after1);
    TrimRemovesMargins(before2, topic, after2);
  }

  /** A subject or topic of only whitespace is refused, however long it is. */
  lemma BlankFieldRefused(blank: string, other: string, classLevel: string)
    requires AllWhitespace(blank)
    ensures RequestFor(blank, other, classLevel).None?
    ensures RequestFor(other, blank, classLevel).None?
  {
    TrimRemovesMargins(blank, [], []);
    assert blank + [] + [] == blank;
  }

  lemma JoinThree(a: string, b: string, c: string, sep: string)
    ensures Join([a, b, c], sep) == a + sep + b + sep + c
  {
    assert [a, b, c][1..] == [b, c];
    assert [b, c][1..] == [c];
  }

  /** Three objectives are shown one per line, the second and third after a bullet; the
      first gets none, since `join` puts separators only between items. */
  lemma ThreeObjectivesShown(a: string, b: string, c: string)
    requires a == [] || a[0] != '\U{2022}'
    ensures FormatObjectives([a, b, c]) == a + Bullet + b + Bullet + c
  {
    JoinThree(a, b, c, Bullet);
  }

  /** Objectives are shown as their strings; a `null` objective is an empty line, since
      `join` prints `null` as the empty string. */
  lemma NullObjectiveShownEmpty(a: string, c: string)
    requires a == [] || a[0] != '\U{2022}'
    ensures FormatObjectives(JoinPieces([JString(a), JNull, JString(c)])) == a + Bullet + Bullet + c
  {
    NullRowPieces(a, c);
    JoinThree(a, "", c, Bullet);
  }

  /** The pieces `join` makes of a string, a `null` and a string. */
  lemma NullRowPieces(a: string, c: string)
    ensures JoinPieces([JString(a), JNull, JString(c)]) == [a, "", c]
  {
    assert JoinPiece(JString(a)) == ToJsString(JString(a)) == a;
    assert JoinPiece(JString(c)) == ToJsString(JString(c)) == c;
    var pieces := JoinPieces([JString(a), JNull, JString(c)]);
    assert pieces[0] == a && pieces[1] == "" && pieces[2] == c;
  }

  /** A bullet the first objective starts with is the one character removed. */
  lemma LeadingBulletRemoved(a: string, b: string, c: string)
    requires a != [] && a[0] == '\U{2022}'
    ensures FormatObjectives([a, b, c]) == a[1..] + Bullet + b + Bullet + c
  {
    JoinThree(a, b, c, Bullet);
    var j := a + Bullet + b + Bullet + c;
    assert j[1..] == a[1..] + Bullet + b + Bullet + c;
  }

  /** Every message the page reports for a failed response names its status code, and the
      code can be read back from it. */
  lemma HttpErrorNamesStatus(outcome: FetchOutcome)
    requires outcome.HttpResponse? && !outcome.Ok()
    ensures ReadAnswer(outcome).Failed?
    ensures StartsWith(ReadAnswer(outcome).message, HttpErrorPrefix)
    ensures var digits := ReadAnswer(outcome).message[|HttpErrorPrefix|..];
            (forall i :: 0 <= i < |digits| ==> '0' <= digits[i] <= '9')
            && DecimalValue(digits) == outcome.status
  {
    var digits := NatToDecimal(outcome.status);
    PrefixOfConcat(HttpErrorPrefix, digits);
    assert (HttpErrorPrefix + digits)[|HttpErrorPrefix|..] == digits;
    DecimalRoundTrip(outcome.status);
  }
}
