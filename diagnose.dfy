/**
 * runDiagnosis without the DOM and the network: the check made before any
 * request is sent, and the view chosen for the response. The response is
 * given by its status, its body text and what JSON.parse makes of that text.
 */
module Diagnose {
  import opened Wrappers
  import opened DecimalText
  import opened Ranking
  import Render

  /** JSON.parse(responseText), reduced to the fields the page reads. */
  datatype Parsed =
    | NotJson(syntaxError: string)  // JSON.parse throws; the SyntaxError's message
    | Json(details: Option<string>, error: Option<string>, results: Option<seq<Diagnosis>>)

  datatype Response = Response(status: nat, text: string, parsed: Parsed)

  /** `response.ok`: the status lies in the range 200 to 299 (Fetch Standard). */
  function IsOk(status: nat): (ok: bool)
    ensures ok <==> status / 100 == 2
  {
    200 <= status <= 299
  }

  /** What pressing the button does before any response arrives. */
  datatype Start = Alert(message: string) | Post(symptoms: seq<string>)

  const NoSymptomsAlert: string := "Please select at least one symptom."

  /** The validation in runDiagnosis: no symptoms means an alert and no request. */
  function Begin(symptoms: seq<string>): (s: Start)
    ensures s.Alert? <==> symptoms == []
    ensures s.Alert? ==> s.message == NoSymptomsAlert
    ensures s.Post? ==> s.symptoms == symptoms
  {
    if |symptoms| == 0 then Alert(NoSymptomsAlert) else Post(symptoms)
  }

  /** How a step of the promise chain ends: with a value, or by throwing an Error. */
  datatype Completion = Returned(results: Option<seq<Diagnosis>>) | Threw(message: string)

  /** `a || fallback` for a string field that may be absent; "" is falsy. */
  function OrElse(a: Option<string>, fallback: string): (r: string)
    ensures a.Some? && a.value != "" ==> r == a.value
    ensures !(a.Some? && a.value != "") ==> r == fallback
  {
    match a
    case Some(v) => if v != "" then v else fallback
    case None => fallback
  }

  /**
   * The try block run for a response that is not ok: parsing the text either
   * throws a SyntaxError, or succeeds and an Error is thrown from `details`,
   * `error` or the status. Either way it throws.
   */
  function NotOkTry(status: nat, parsed: Parsed): (c: Completion)
    ensures c.Threw?
  {
    match parsed
    case NotJson(syntaxError) => Threw(syntaxError)
    case Json(details, error, _) =>
      Threw(OrElse(details, OrElse(error, "Server error: " + Decimal(status))))
  }

  /** The message the catch throws: a fixed prefix, the status, a separator and the whole body text. */
  function ServerErrorMessage(status: nat, text: string): (m: string)
    ensures |m| == 14 + |Decimal(status)| + 3 + |text|
    ensures m[..14] == "Server error: "
    ensures m[14..14 + |Decimal(status)|] == Decimal(status)
    ensures m[|m| - |text|..] == text
  {
    "Server error: " + Decimal(status) + " - " + text
  }

  /** The catch at medical/script.js:79-80: any exception is replaced by a new one. */
  function CatchAndRethrow(attempt: Completion, replacement: string): (c: Completion)
    ensures attempt.Threw? ==> c == Threw(replacement)
    ensures attempt.Returned? ==> c == attempt
  {
    match attempt
    case Threw(_) => Threw(replacement)
    case Returned(_) => attempt
  }

  /** The first `.then` handler: reject a response that is not ok, else parse it. */
  function HandleResponse(r: Response): (c: Completion)
    ensures !IsOk(r.status) ==> c == Threw(ServerErrorMessage(r.status, r.text))
    ensures IsOk(r.status) && r.parsed.NotJson? ==> c == Threw(r.parsed.syntaxError)
    ensures IsOk(r.status) && r.parsed.Json? ==> c == Returned(r.parsed.results)
  {
    if !IsOk(r.status) then
      CatchAndRethrow(NotOkTry(r.status, r.parsed), ServerErrorMessage(r.status, r.text))
    else
      match r.parsed
      case NotJson(syntaxError) => Threw(syntaxError)
      case Json(_, _, results) => Returned(results)
  }

  /** The page's state after a response. */
  datatype View =
    | ErrorView(message: string)                              // renderError
    | NoResultsView                                           // renderNoResults
    | ResultsView(results: seq<Diagnosis>, symptoms: seq<string>)  // renderResults

  /**
   * The second `.then` handler: a missing or empty `results` gives the
   * no-results view, anything else the results view.
   */
  function ShowData(results: Option<seq<Diagnosis>>, symptoms: seq<string>): (v: View)
    ensures !v.ErrorView?
    ensures v == NoResultsView <==> results == None || results == Some([])
    ensures v.ResultsView? ==> results == Some(v.results) && v.symptoms == symptoms
  {
    match results
    case None => NoResultsView
    case Some(rs) => if |rs| == 0 then NoResultsView else ResultsView(rs, symptoms)
  }

  /** The whole chain, with `.catch` rendering the message of whatever was thrown. */
  function Complete(symptoms: seq<string>, r: Response): (v: View)
    ensures v.ErrorView? <==> HandleResponse(r).Threw?
    ensures v.ErrorView? ==> v.message == HandleResponse(r).message
    ensures v.ResultsView? ==> v.results != [] && v.symptoms == symptoms
  {
    match HandleResponse(r)
    case Threw(message) => ErrorView(message)
    case Returned(results) => ShowData(results, symptoms)
  }

  /**
   * A response that is not ok always shows "Server error: <status> - <text>":
   * the catch replaces the message built from `details` or `error`.
   */
  lemma NotOkShowsServerError(symptoms: seq<string>, r: Response)
    requires !IsOk(r.status)
    ensures Complete(symptoms, r) == ErrorView(ServerErrorMessage(r.status, r.text))
  {
    assert NotOkTry(r.status, r.parsed).Threw?;
  }

  /** For a response that is not ok, what its body parses to makes no difference. */
  lemma NotOkIgnoresParse(symptoms: seq<string>, status: nat, text: string, p: Parsed, q: Parsed)
    requires !IsOk(status)
    ensures Complete(symptoms, Response(status, text, p)) == Complete(symptoms, Response(status, text, q))
  {
    NotOkShowsServerError(symptoms, Response(status, text, p));
    NotOkShowsServerError(symptoms, Response(status, text, q));
  }

  /** The error text names the status and the body exactly: different ones read differently. */
  lemma ServerErrorMessageReadBack(s1: nat, t1: string, s2: nat, t2: string)
    requires ServerErrorMessage(s1, t1) == ServerErrorMessage(s2, t2)
    ensures s1 == s2 && t1 == t2
  {
    var prefix := "Server error: ";
    var m1, m2 := ServerErrorMessage(s1, t1), ServerErrorMessage(s2, t2);
    assert m1 == prefix + (Decimal(s1) + (" - " + t1));
    assert m2 == prefix + (Decimal(s2) + (" - " + t2));
    assert m1[|prefix|..] == Decimal(s1) + (" - " + t1);
    assert m2[|prefix|..] == Decimal(s2) + (" - " + t2);
    DecimalThenText(s1, " - " + t1, s2, " - " + t2);
    assert t1 == (" - " + t1)[3..];
    assert t2 == (" - " + t2)[3..];
  }

  /** An error view comes exactly from a response that is not ok or whose text is not JSON. */
  lemma ErrorViewExactly(symptoms: seq<string>, r: Response)
    ensures Complete(symptoms, r).ErrorView? <==> !IsOk(r.status) || r.parsed.NotJson?
  {
  }

  /** An ok JSON response with no `results`, or an empty one, shows the no-results view. */
  lemma OkWithoutResultsShowsNoResults(symptoms: seq<string>, r: Response)
    requires IsOk(r.status) && r.parsed.Json?
    ensures Complete(symptoms, r) == NoResultsView <==>
      r.parsed.results == None || r.parsed.results == Some([])
  {
  }

  /** Otherwise the results and the selected symptoms go to renderResults as they are. */
  lemma OkWithResultsShowsThem(symptoms: seq<string>, r: Response)
    requires IsOk(r.status) && r.parsed.Json?
    requires r.parsed.results.Some? && r.parsed.results.value != []
    ensures Complete(symptoms, r) == ResultsView(r.parsed.results.value, symptoms)
  {
  }

  /**
   * A body whose `details` is non-empty, sent with a status that is not ok,
   * makes the try block throw those details, and the page still shows the
   * generic message instead.
   */
  lemma DetailsAreNotShown(symptoms: seq<string>, status: nat, text: string,
                           d: string, e: Option<string>, rs: Option<seq<Diagnosis>>)
    requires !IsOk(status) && d != ""
    ensures NotOkTry(status, Json(Some(d), e, rs)) == Threw(d)
    ensures Complete(symptoms, Response(status, text, Json(Some(d), e, rs))) ==
      ErrorView(ServerErrorMessage(status, text))
  {
    NotOkShowsServerError(symptoms, Response(status, text, Json(Some(d), e, rs)));
  }

  /** The same for a 400 response whose body is the JSON text of such details. */
  lemma DetailsAreNotShownExample()
    ensures var r := Response(400, "{\"details\":\"x\"}", Json(Some("x"), None, None));
      NotOkTry(r.status, r.parsed) == Threw("x") &&
      Complete(["cough"], r) == ErrorView(ServerErrorMessage(400, r.text))
  {
    DetailsAreNotShown(["cough"], 400, "{\"details\":\"x\"}", "x", None, None);
  }

  /**
   * A results view only follows a request, which needs a symptom, and
   * non-empty results; so on every results page both counts are at least one
   * and the summary's `> 1` rule agrees with the counter's `!== 1` rule.
   */
  lemma ResultsViewCounts(symptoms: seq<string>, r: Response)
    requires Begin(symptoms).Post?
    requires Complete(symptoms, r).ResultsView?
    ensures var v := Complete(symptoms, r);
      |v.results| >= 1 && |v.symptoms| >= 1 &&
      Render.ResultsSummary(|v.results|, |v.symptoms|) ==
        "Found " + Render.Counted(|v.results|, "potential condition", |v.results| != 1) +
        " based on " + Render.Counted(|v.symptoms|, "symptom", |v.symptoms| != 1)
  {
  }
}
