/**
  The model probe (netlify/functions/find-working-model.js): it asks each candidate model in
  turn to answer a one-word prompt, records every failure, and stops at the first model that
  answers. The model call is an oracle `probe` from the model name to what the call yields.
*/
module FindWorkingModel {
  import opened JsText

  /** The candidate models, in the order they are tried. */
  const Models: seq<string> := [
    "gemini-1.5-flash",
    "gemini-1.5-flash-8b",
    "gemini-1.5-flash-002",
    "gemini-1.5-pro",
    "gemini-1.5-pro-002",
    "gemini-pro",
    "gemini-pro-vision"
  ]

  /** The prompt every candidate is sent. */
  const TestPrompt := "Test"

  /** The longest preview of a reply the report keeps. */
  const PreviewLength := 50

  /** What `generateContent(TestPrompt)` followed by `response.text()` yields for one model:
      the reply text, or the message of the error thrown. */
  datatype Probe = Answered(text: string) | ProbeFailed(message: string)

  /** One entry of `results`. */
  datatype ProbeResult =
    | Succeeded(model: string, response: string)
    | Failed(model: string, error: string)
  {
    /** The entry's `status` field. */
    function Status(): string {
      if Succeeded? then "SUCCESS" else "FAILED"
    }
  }

  /** The response of the endpoint, with `{ results }` before `JSON.stringify`. */
  datatype ProbeReport = ProbeReport(statusCode: nat, headers: seq<(string, string)>,
                                     results: seq<ProbeResult>)

  const JsonHeaders: seq<(string, string)> := [("Content-Type", "application/json")]

  /** `text.substring(0, 50)`: the first 50 characters, or all of a shorter text. */
  function Preview(text: string): (r: string)
    ensures |r| == if |text| < PreviewLength then |text| else PreviewLength
    ensures StartsWith(text, r)
  {
    if |text| <= PreviewLength then text else text[..PreviewLength]
  }

  /** The entry recorded for one model. */
  function Entry(name: string, outcome: Probe): (e: ProbeResult)
    ensures e.model == name
    ensures e.Succeeded? <==> outcome.Answered?
    ensures e.Succeeded? ==> e.response == Preview(outcome.text)
    ensures e.Failed? ==> e.error == outcome.message
  {
    match outcome
    case Answered(text) => Succeeded(name, Preview(text))
    case ProbeFailed(message) => Failed(name, message)
  }

  /** The results of trying `names` in order: one entry per model up to and including the
      first that answers. */
  function Scan(names: seq<string>, probe: string -> Probe): seq<ProbeResult> {
    if names == [] then []
    else
      var e := Entry(names[0], probe(names[0]));
      if e.Succeeded? then [e] else [e] + Scan(names[1..], probe)
  }

  /** The handler: the loop over the candidates with its `break`, then the report. */
  method Handler(probe: string -> Probe) returns (report: ProbeReport)
    ensures report == ProbeReport(200, JsonHeaders, Scan(Models, probe))
  {
    var results: seq<ProbeResult> := [];
    var i := 0;
    while i < |Models|
      invariant 0 <= i <= |Models|
      invariant Scan(Models, probe) == results + Scan(Models[i..], probe)
      invariant forall k :: 0 <= k < |results| ==> results[k].Failed?
      decreases |Models| - i
    {
      var outcome := probe(Models[i]);
      assert Models[i..][0] == Models[i];
      assert Scan(Models[i..], probe)
             == if outcome.Answered? then [Entry(Models[i], outcome)]
                else [Entry(Models[i], outcome)] + Scan(Models[i..][1..], probe);
      match outcome {
        case Answered(text) =>
          results := results + [Succeeded(Models[i], Preview(text))];
          break;
        case ProbeFailed(message) =>
          results := results + [Failed(Models[i], message)];
          assert Models[i..][1..] == Models[i + 1..];
      }
      i := i + 1;
    }
    if i == |Models| {
      assert Models[i..] == [];
    }
    report := ProbeReport(200, JsonHeaders, results);
  }

  // ---------------------------------------------------------------------------
  // Properties of the scan

  /** The results name the models tried, in order: a prefix of the candidates, never empty
      when there is a candidate. */
  lemma {:induction false} ScanNamesArePrefix(names: seq<string>, probe: string -> Probe)
    ensures |Scan(names, probe)| <= |names|
    ensures names != [] ==> Scan(names, probe) != []
    ensures forall k :: 0 <= k < |Scan(names, probe)| ==> Scan(names, probe)[k].model == names[k]
  {
    if names != [] && !probe(names[0]).Answered? {
      ScanNamesArePrefix(names[1..], probe);
    }
  }

  /** Every entry but the last is a failure; a success can only be the last entry. */
  lemma {:induction false} ScanFailuresBeforeLast(names: seq<string>, probe: string -> Probe)
    ensures forall k :: 0 <= k < |Scan(names, probe)| - 1 ==> Scan(names, probe)[k].Failed?
    ensures forall k :: 0 <= k < |Scan(names, probe)| && Scan(names, probe)[k].Succeeded?
                        ==> k == |Scan(names, probe)| - 1
  {
    if names != [] && !probe(names[0]).Answered? {
      ScanFailuresBeforeLast(names[1..], probe);
    }
  }

  /** When model `i` is the first that answers, there are `i + 1` entries and the last is its
      success, with the preview of its reply. */
  lemma {:induction false} ScanFirstWorking(names: seq<string>, probe: string -> Probe, i: nat)
    requires i < |names| && probe(names[i]).Answered?
    requires forall k :: 0 <= k < i ==> probe(names[k]).ProbeFailed?
    ensures |Scan(names, probe)| == i + 1
    ensures Scan(names, probe)[i] == Succeeded(names[i], Preview(probe(names[i]).text))
  {
    if i > 0 {
      forall k | 0 <= k < i - 1
        ensures probe(names[1..][k]).ProbeFailed?
      {
        assert names[1..][k] == names[k + 1];
      }
      ScanFirstWorking(names[1..], probe, i - 1);
    }
  }

  /** When no model answers, every model has a failure entry carrying its error message. */
  lemma {:induction false} ScanNoneWorks(names: seq<string>, probe: string -> Probe)
    requires forall k :: 0 <= k < |names| ==> probe(names[k]).ProbeFailed?
    ensures |Scan(names, probe)| == |names|
    ensures forall k :: 0 <= k < |names|
                        ==> Scan(names, probe)[k] == Failed(names[k], probe(names[k]).message)
  {
    if names != [] {
      forall k | 0 <= k < |names| - 1
        ensures probe(names[1..][k]).ProbeFailed?
      {
        assert names[1..][k] == names[k + 1];
      }
      ScanNoneWorks(names[1..], probe);
    }
  }

  /** Some entry is a success exactly when some model answers. */
  lemma {:induction false} ScanSucceedsIffSomeAnswers(names: seq<string>, probe: string -> Probe)
    ensures (exists k :: 0 <= k < |Scan(names, probe)| && Scan(names, probe)[k].Succeeded?)
            <==> (exists k :: 0 <= k < |names| && probe(names[k]).Answered?)
  {
    if names != [] {
      ScanSucceedsIffSomeAnswers(names[1..], probe);
      if !probe(names[0]).Answered? {
        var rest := Scan(names[1..], probe);
        assert Scan(names, probe) == [Failed(names[0], probe(names[0]).message)] + rest;
        if exists k :: 0 <= k < |rest| && rest[k].Succeeded? {
          var k :| 0 <= k < |rest| && rest[k].Succeeded?;
          assert Scan(names, probe)[k + 1] == rest[k];
        }
        if exists k :: 0 <= k < |names[1..]| && probe(names[1..][k]).Answered? {
          var k :| 0 <= k < |names[1..]| && probe(names[1..][k]).Answered?;
          assert names[1..][k] == names[k + 1];
        }
        if exists k :: 0 <= k < |Scan(names, probe)| && Scan(names, probe)[k].Succeeded? {
          var k :| 0 <= k < |Scan(names, probe)| && Scan(names, probe)[k].Succeeded?;
          assert k > 0 && rest[k - 1] == Scan(names, probe)[k];
        }
        if exists k :: 0 <= k < |names| && probe(names[k]).Answered? {
          var k :| 0 <= k < |names| && probe(names[k]).Answered?;
          assert k > 0 && names[1..][k - 1] == names[k];
        }
      } else {
        assert Scan(names, probe)[0].Succeeded?;
      }
    }
  }

  /** For the seven candidates (so for the report `Handler` returns): with no model working
      there are seven failures, and with model `i` the first that works there are `i + 1`
      entries ending in its success. */
  lemma CandidatesReport(probe: string -> Probe)
    ensures (forall k :: 0 <= k < 7 ==> probe(Models[k]).ProbeFailed?)
            ==> |Scan(Models, probe)| == 7
                && forall k :: 0 <= k < 7 ==> Scan(Models, probe)[k].Status() == "FAILED"
    ensures forall i :: 0 <= i < 7 && probe(Models[i]).Answered?
                        && (forall k :: 0 <= k < i ==> probe(Models[k]).ProbeFailed?)
                        ==> |Scan(Models, probe)| == i + 1
                            && Scan(Models, probe)[i].Status() == "SUCCESS"
  {
    if forall k :: 0 <= k < 7 ==> probe(Models[k]).ProbeFailed? {
      ScanNoneWorks(Models, probe);
    }
    forall i | 0 <= i < 7 && probe(Models[i]).Answered?
               && (forall k :: 0 <= k < i ==> probe(Models[k]).ProbeFailed?)
      ensures |Scan(Models, probe)| == i + 1 && Scan(Models, probe)[i].Status() == "SUCCESS"
    {
      ScanFirstWorking(Models, probe, i);
    }
  }
}
