/** The query executor and the alert extractor: the status check on the one
    HTTPS response (main.py:49-54) and the fixed path read out of its JSON
    body (main.py:45-47). The request itself is not modelled; its response
    is the input. */
module GraphQL {
  import opened Decimal
  import opened Json

  /** What `request.json()` makes of the response body. */
  datatype Decoded = Parsed(value: Json) | NotJson

  /** The HTTP response of the POST: its status, its raw text and its decoded body. */
  datatype HttpResponse = HttpResponse(statusCode: int, text: string, decoded: Decoded)

  /** The keys from the top of the response down to the alert list. */
  const NodesPath: seq<string> := ["data", "repository", "codeScanningAlerts", "nodes"]

  /** The text of the exception raised for a status other than 200. */
  function FailureMessage(statusCode: int, text: string): (m: string)
    ensures |m| == 41 + |IntToString(statusCode)| + 2 + |text|
    ensures m[..41] == "Query failed to run " + "by returning code of "
    ensures m[41..41 + |IntToString(statusCode)|] == IntToString(statusCode)
    ensures m[41 + |IntToString(statusCode)|..43 + |IntToString(statusCode)|] == ". "
    ensures m[|m| - |text|..] == text
  {
    var code := IntToString(statusCode);
    var prefix := "Query failed to run " + "by returning code of ";
    assert |prefix| == 41;
    prefix + code + ". " + text
  }

  /** `execute_graphql_query`: the decoded body when the status is exactly 200, an exception otherwise. */
  function ExecuteGraphqlQuery(response: HttpResponse): (r: Result<Json>)
    ensures r.Ok? <==> response.statusCode == 200 && response.decoded.Parsed?
    ensures r.Ok? ==> r.value == response.decoded.value
    ensures response.statusCode == 200 && response.decoded.NotJson? ==> r == Err(JsonDecodeError)
    ensures response.statusCode != 200 ==> r == Err(QueryFailed(FailureMessage(response.statusCode, response.text)))
  {
    if response.statusCode == 200 then
      match response.decoded
      case Parsed(body) => Ok(body)
      case NotJson => Err(JsonDecodeError)
    else
      Err(QueryFailed(FailureMessage(response.statusCode, response.text)))
  }

  /** `fetch_code_scanning_alerts`: `response['data']['repository']['codeScanningAlerts']['nodes']`
      of the executed query, returned as it is, whatever it holds. */
  function FetchCodeScanningAlerts(response: HttpResponse): (r: Result<Json>)
    ensures r.Ok? <==>
      ExecuteGraphqlQuery(response).Ok? && SubscriptPath(response.decoded.value, NodesPath).Ok?
  {
    var body :- ExecuteGraphqlQuery(response);
    SubscriptPath(body, NodesPath)
  }

  /** Extraction succeeds exactly when every key of the path is present, each
      level being an object, and it then returns the value under `nodes` unchanged. */
  lemma FetchReadsThePath(body: Json, text: string, v: Json)
    ensures FetchCodeScanningAlerts(HttpResponse(200, text, Parsed(body))) == Ok(v) <==>
      && body.JObj? && "data" in body.fields
      && var data := body.fields["data"];
      && data.JObj? && "repository" in data.fields
      && var repository := data.fields["repository"];
      && repository.JObj? && "codeScanningAlerts" in repository.fields
      && var alerts := repository.fields["codeScanningAlerts"];
      && alerts.JObj? && "nodes" in alerts.fields
      && alerts.fields["nodes"] == v
  {
  }

  /** Any response body that nests a value along the path yields exactly that value. */
  lemma FetchNested(text: string, v: Json)
    ensures FetchCodeScanningAlerts(HttpResponse(200, text, Parsed(Nest(NodesPath, v)))) == Ok(v)
  {
    SubscriptNest(NodesPath, v);
  }

  /** The first key of the path that is absent from an object on the way is the KeyError raised;
      a level that is not an object raises TypeError. */
  lemma {:induction false} FetchFailsAtFirstMissingKey(body: Json, text: string, k: nat, level: Json)
    requires k < |NodesPath|
    requires SubscriptPath(body, NodesPath[..k]) == Ok(level)
    requires !(level.JObj? && NodesPath[k] in level.fields)
    ensures FetchCodeScanningAlerts(HttpResponse(200, text, Parsed(body))) ==
      if level.JObj? then Err(KeyError(NodesPath[k])) else Err(TypeError)
  {
    assert NodesPath == NodesPath[..k] + NodesPath[k..];
    SubscriptPathConcat(body, NodesPath[..k], NodesPath[k..]);
  }
}
