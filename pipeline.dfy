/** `main` (main.py:76-84): fetch the alerts, stop with a notice when there
    are none, otherwise render the report and write it to a fixed file name.
    The run is a function of the HTTP response; its result says which text,
    if any, would be written. */
module Pipeline {
  import opened Decimal
  import opened Json
  import opened GraphQL
  import opened Markdown

  /** The file the report is written to, in the working directory. */
  const ReportFile: string := "codescanning_vulnerability_report.md"

  /** How a run ends: with an unhandled exception, with the notice that there is
      nothing to report (no file touched), or having written the report. */
  datatype Outcome =
    | Crashed(error: Error)
    | NothingToReport
    | Wrote(fileName: string, content: string)

  /** `main`: the `if not alerts` gate, then rendering and writing. A truthy
      value that is not a list cannot be iterated as alert records and raises
      TypeError. */
  function RunMain(response: HttpResponse, org: string, repo: string): (o: Outcome)
    ensures o.NothingToReport? <==>
      FetchCodeScanningAlerts(response).Ok? && !Truthy(FetchCodeScanningAlerts(response).value)
    ensures o.Wrote? ==>
      o.fileName == ReportFile &&
      exists nodes: seq<Json>, alerts: seq<Alert> ::
        && FetchCodeScanningAlerts(response) == Ok(JArr(nodes))
        && nodes != []
        && DecodeAlerts(nodes) == Ok(alerts)
        && o.content == Render(org, repo, alerts)
    ensures response.statusCode != 200 ==>
      o == Crashed(QueryFailed(FailureMessage(response.statusCode, response.text)))
    ensures response.statusCode == 200 && response.decoded.NotJson? ==> o == Crashed(JsonDecodeError)
    ensures FetchCodeScanningAlerts(response).Err? ==> o == Crashed(FetchCodeScanningAlerts(response).error)
    ensures var f := FetchCodeScanningAlerts(response);
      f.Ok? && f.value.JArr? && f.value.items != [] && DecodeAlerts(f.value.items).Err? ==>
        o == Crashed(DecodeAlerts(f.value.items).error)
  {
    match FetchCodeScanningAlerts(response)
    case Err(e) => Crashed(e)
    case Ok(alerts) =>
      if !Truthy(alerts) then NothingToReport
      else
        match alerts
        case JArr(nodes) =>
          (match Summary(org, repo, nodes)
           case Err(e) => Crashed(e)
           case Ok(text) => Wrote(ReportFile, text))
        case _ => Crashed(TypeError)
  }

  /** An empty alert list renders nothing and writes nothing. */
  lemma EmptyListWritesNothing(response: HttpResponse, org: string, repo: string)
    requires FetchCodeScanningAlerts(response) == Ok(JArr([]))
    ensures RunMain(response, org, repo) == NothingToReport
  {
  }

  /** A non-empty list whose nodes all decode writes exactly the rendered report:
      the header lines and one row per node, in order. */
  lemma NonEmptyListWritesReport(response: HttpResponse, org: string, repo: string, nodes: seq<Json>)
    requires FetchCodeScanningAlerts(response) == Ok(JArr(nodes))
    requires nodes != []
    requires forall k :: 0 <= k < |nodes| ==> AlertOf(nodes[k]).Ok?
    ensures RunMain(response, org, repo).Wrote?
    ensures var lines := Lines(org, repo, DecodeAlerts(nodes).value);
      && RunMain(response, org, repo).content == Text.Join(lines, '\n')
      && |lines| == |nodes| + 3
      && forall k :: 0 <= k < |nodes| ==>
           lines[k + 3] == Row(k + 1, org, repo, AlertOf(nodes[k]).value)
  {
    var alerts := DecodeAlerts(nodes).value;
    assert forall k :: 0 <= k < |nodes| ==> AlertOf(nodes[k]).value == alerts[k];
  }

  /** A fetched non-empty list whose nodes all decode is rendered and written to the report file. */
  lemma DecodedListWritesReport(response: HttpResponse, org: string, repo: string, nodes: seq<Json>, alerts: seq<Alert>)
    requires FetchCodeScanningAlerts(response) == Ok(JArr(nodes))
    requires nodes != []
    requires DecodeAlerts(nodes) == Ok(alerts)
    ensures RunMain(response, org, repo) == Wrote(ReportFile, Render(org, repo, alerts))
  {
    assert Truthy(JArr(nodes));
  }

  /** A truthy `nodes` value that is not a list ends the run with TypeError before anything is written. */
  lemma NonListCrashes(response: HttpResponse, org: string, repo: string)
    requires FetchCodeScanningAlerts(response).Ok?
    requires Truthy(FetchCodeScanningAlerts(response).value)
    requires !FetchCodeScanningAlerts(response).value.JArr?
    ensures RunMain(response, org, repo) == Crashed(TypeError)
  {
  }

  /** A status other than 200 ends the run before anything is written, with a
      message that carries the status code and the response text. */
  lemma FailedQueryWritesNothing(response: HttpResponse, org: string, repo: string)
    requires response.statusCode != 200
    ensures RunMain(response, org, repo).Crashed?
    ensures var m := RunMain(response, org, repo).error.message;
      && m[41..41 + |IntToString(response.statusCode)|] == IntToString(response.statusCode)
      && m[|m| - |response.text|..] == response.text
  {
  }

  /** A response that carries the nodes of a non-empty list of alerts writes their report. */
  lemma AlertNodesWriteTheirReport(text: string, org: string, repo: string, alerts: seq<Alert>)
    requires alerts != []
    ensures RunMain(HttpResponse(200, text, Parsed(Nest(NodesPath, JArr(AlertNodes(alerts))))), org, repo) ==
      Wrote(ReportFile, Render(org, repo, alerts))
  {
    var nodes := AlertNodes(alerts);
    var response := HttpResponse(200, text, Parsed(Nest(NodesPath, JArr(nodes))));
    FetchNested(text, JArr(nodes));
    DecodeAlertNodes(alerts);
    DecodedListWritesReport(response, org, repo, nodes, alerts);
  }

  /** One alert for `acme/widgets`: the written file is the three header lines and one row. */
  lemma SingleAlertReport(text: string)
    ensures
      var alerts := [Alert("lodash", "HIGH", "Prototype pollution")];
      var response := HttpResponse(200, text, Parsed(Nest(NodesPath, JArr(AlertNodes(alerts)))));
      RunMain(response, "acme", "widgets") == Wrote(ReportFile,
        Title + "\n" + ColumnHeader + "\n" + Separator + "\n" +
        ("|" + " 1 " + "|" + " acme/widgets " + "|" + " lodash " + "|" + " HIGH " + "|" + " Prototype pollution " + "|"))
  {
    AlertNodesWriteTheirReport(text, "acme", "widgets", [Alert("lodash", "HIGH", "Prototype pollution")]);
    SingleAlertText();
  }

  /** The text rendered for the single alert above. */
  lemma SingleAlertText()
    ensures Render("acme", "widgets", [Alert("lodash", "HIGH", "Prototype pollution")]) ==
      Title + "\n" + ColumnHeader + "\n" + Separator + "\n" +
      ("|" + " 1 " + "|" + " acme/widgets " + "|" + " lodash " + "|" + " HIGH " + "|" + " Prototype pollution " + "|")
  {
    SingleAlertRow();
    RenderOneAlert("acme", "widgets", Alert("lodash", "HIGH", "Prototype pollution"));
  }

  /** The row rendered for the single alert above, cell by cell. */
  lemma SingleAlertRow()
    ensures Row(1, "acme", "widgets", Alert("lodash", "HIGH", "Prototype pollution")) ==
      "|" + " 1 " + "|" + " acme/widgets " + "|" + " lodash " + "|" + " HIGH " + "|" + " Prototype pollution " + "|"
  {
    assert NatToString(1) == "1";
    assert Padded("1") == " 1 ";
    assert Padded("acme" + "/" + "widgets") == " acme/widgets ";
    assert Padded("lodash") == " lodash ";
    assert Padded("HIGH") == " HIGH ";
    assert Padded("Prototype pollution") == " Prototype pollution ";
  }
}
