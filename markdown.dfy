/** The report renderer, `generate_markdown_summary` (main.py:56-70): a
    heading, a two-line table header, then one numbered row per alert in
    input order, the lines joined with a line break. */
module Markdown {
  import opened Decimal
  import opened Text
  import opened Json

  /** The three fields of an alert that the report shows, as their f-string text. */
  datatype Alert = Alert(packageName: string, severity: string, summary: string)

  /** The three header lines, the table lines written column by column. Both
      table lines end in a space after their last `|`. */
  const Title: string := "## Code Scanning Alerts Report"
  const ColumnHeader: string :=
    "| S.No " + "| Org/Repo Name " + "| Package Name " + "| Severity " + "| Summary " + "| "
  const Separator: string :=
    "| ---- " + "| ------------- " + "| ------------ " + "| -------- " + "| ------- " + "| "

  /** The three lookups of one alert node, in the order the loop body performs
      them, then the f-string's conversion of each value to text. Each shared
      level is subscripted once; `AlertOfIsTheLiteralChain` shows this is the
      loop body's three full chains. */
  function AlertOf(node: Json): (r: Result<Alert>)
    ensures r.Err? ==>
      || r.error == TypeError || r.error == Unrendered
      || r.error in {KeyError("securityVulnerability"), KeyError("package"), KeyError("name")}
      || r.error in {KeyError("advisory"), KeyError("severity"), KeyError("summary")}
  {
    var vulnerability :- Subscript(node, "securityVulnerability");
    var package :- Subscript(vulnerability, "package");
    var packageName :- Subscript(package, "name");
    var advisory :- Subscript(vulnerability, "advisory");
    var severity :- Subscript(advisory, "severity");
    var summary :- Subscript(advisory, "summary");
    var p :- Str(packageName);
    var s :- Str(severity);
    var m :- Str(summary);
    Ok(Alert(p, s, m))
  }

  /** The loop body exactly as written: three full subscript chains, each
      starting again from the node, then the three conversions. */
  function LiteralLookups(node: Json): Result<Alert> {
    var packageName :- SubscriptPath(node, ["securityVulnerability", "package", "name"]);
    var severity :- SubscriptPath(node, ["securityVulnerability", "advisory", "severity"]);
    var summary :- SubscriptPath(node, ["securityVulnerability", "advisory", "summary"]);
    var p :- Str(packageName);
    var s :- Str(severity);
    var m :- Str(summary);
    Ok(Alert(p, s, m))
  }

  /** Looking each shared level up once gives the same alert, or the same first
      exception, as the three chains of the loop body. */
  lemma AlertOfIsTheLiteralChain(node: Json)
    ensures AlertOf(node) == LiteralLookups(node)
  {
    SubscriptPathThree(node, "securityVulnerability", "package", "name");
    SubscriptPathThree(node, "securityVulnerability", "advisory", "severity");
    SubscriptPathThree(node, "securityVulnerability", "advisory", "summary");
  }

  /** Any node, whatever other fields it carries, whose three paths hold strings
      decodes to exactly those strings. */
  lemma AlertOfReadsStrings(node: Json, a: Alert)
    requires SubscriptPath(node, ["securityVulnerability", "package", "name"]) == Ok(JStr(a.packageName))
    requires SubscriptPath(node, ["securityVulnerability", "advisory", "severity"]) == Ok(JStr(a.severity))
    requires SubscriptPath(node, ["securityVulnerability", "advisory", "summary"]) == Ok(JStr(a.summary))
    ensures AlertOf(node) == Ok(a)
  {
    AlertOfIsTheLiteralChain(node);
  }

  /** The smallest alert node that holds these three string fields: it has
      only the keys the three lookups read. */
  function AlertNode(a: Alert): Json {
    JObj(map["securityVulnerability" := JObj(map[
      "package" := JObj(map["name" := JStr(a.packageName)]),
      "advisory" := JObj(map["severity" := JStr(a.severity), "summary" := JStr(a.summary)])])])
  }

  /** Reading an alert node built from an alert gives that alert back. */
  lemma AlertOfAlertNode(a: Alert)
    ensures AlertOf(AlertNode(a)) == Ok(a)
  {
  }

  /** The outcomes of decoding each node, in node order. */
  function Outcomes(nodes: seq<Json>): (r: seq<Result<Alert>>)
    ensures |r| == |nodes| && forall k :: 0 <= k < |nodes| ==> r[k] == AlertOf(nodes[k])
  {
    seq(|nodes|, k requires 0 <= k < |nodes| => AlertOf(nodes[k]))
  }

  /** The values of a list of outcomes when all succeed, else the error of the first that failed. */
  function Collect(outcomes: seq<Result<Alert>>): (r: Result<seq<Alert>>)
    ensures r.Ok? <==> forall k :: 0 <= k < |outcomes| ==> outcomes[k].Ok?
    ensures r.Ok? ==> (|r.value| == |outcomes| &&
      forall k :: 0 <= k < |outcomes| ==> outcomes[k] == Ok(r.value[k]))
    ensures r.Err? ==>
      exists k :: 0 <= k < |outcomes| && outcomes[k] == Err(r.error) &&
                  forall j :: 0 <= j < k ==> outcomes[j].Ok?
    decreases |outcomes|
  {
    if outcomes == [] then Ok([])
    else
      var n := |outcomes| - 1;
      var init := outcomes[..n];
      assert forall k :: 0 <= k < n ==> init[k] == outcomes[k];
      match Collect(init)
      case Err(e) => Err(e)
      case Ok(values) =>
        match outcomes[n]
        case Err(e) => Err(e)
        case Ok(a) => Ok(values + [a])
  }

  /** The alerts of a node list, in order; the first node that raises decides the error. */
  function DecodeAlerts(nodes: seq<Json>): (r: Result<seq<Alert>>)
    ensures r.Ok? <==> forall k :: 0 <= k < |nodes| ==> AlertOf(nodes[k]).Ok?
    ensures r.Ok? ==> (|r.value| == |nodes| &&
      forall k :: 0 <= k < |nodes| ==> AlertOf(nodes[k]) == Ok(r.value[k]))
    ensures r.Err? ==>
      exists k :: 0 <= k < |nodes| && AlertOf(nodes[k]) == Err(r.error) &&
                  forall j :: 0 <= j < k ==> AlertOf(nodes[j]).Ok?
  {
    Collect(Outcomes(nodes))
  }

  /** The alert nodes the API sends for these alerts, in the same order. */
  function AlertNodes(alerts: seq<Alert>): (nodes: seq<Json>)
    ensures |nodes| == |alerts| && forall k :: 0 <= k < |alerts| ==> nodes[k] == AlertNode(alerts[k])
  {
    seq(|alerts|, k requires 0 <= k < |alerts| => AlertNode(alerts[k]))
  }

  /** Decoding the nodes of a list of alerts gives back that list. */
  lemma DecodeAlertNodes(alerts: seq<Alert>)
    ensures DecodeAlerts(AlertNodes(alerts)) == Ok(alerts)
  {
    var nodes := AlertNodes(alerts);
    forall k | 0 <= k < |alerts| ensures AlertOf(nodes[k]) == Ok(alerts[k]) {
      AlertOfAlertNode(alerts[k]);
    }
    var r := DecodeAlerts(nodes);
    assert r.Ok?;
    assert forall k :: 0 <= k < |alerts| ==> r.value[k] == alerts[k];
    assert r.value == alerts;
  }

  /** A table cell: the value with one space on each side. */
  function Padded(s: string): string {
    " " + s + " "
  }

  /** One table row: a `|`, then the row number, `org/repo` and the three fields,
      each padded by a space and closed by a `|`. The fields are copied verbatim:
      nothing in them is escaped. */
  function Row(index: nat, org: string, repo: string, a: Alert): (r: string)
    ensures |r| == |NatToString(index)| + |org| + |repo| + |a.packageName| + |a.severity| + |a.summary| + 17
    ensures r[0] == '|' && r[|r| - 1] == '|'
  {
    "|" + Padded(NatToString(index)) + "|" + Padded(org + "/" + repo) + "|" +
    Padded(a.packageName) + "|" + Padded(a.severity) + "|" + Padded(a.summary) + "|"
  }

  /** A row opens with `| `, its number, and a space. */
  lemma RowStartsWithNumber(index: nat, org: string, repo: string, a: Alert)
    ensures var r, d := Row(index, org, repo, a), NatToString(index);
      |r| > |d| + 2 && r[2..|d| + 2] == d && r[|d| + 2] == ' '
  {
    var d := NatToString(index);
    var r := Row(index, org, repo, a);
    var p := "|" + Padded(d);
    assert forall k :: 0 <= k < |p| ==> r[k] == p[k];
    assert p[2..|d| + 2] == d;
  }

  /** Rows with different numbers differ, whatever their fields hold: the number
      ends at the first space after `| `, and digits are never spaces. */
  lemma RowsWithDifferentNumbersDiffer(i: nat, j: nat, org: string, repo: string, a: Alert, b: Alert)
    requires i != j
    ensures Row(i, org, repo, a) != Row(j, org, repo, b)
  {
    var di, dj := NatToString(i), NatToString(j);
    var ri, rj := Row(i, org, repo, a), Row(j, org, repo, b);
    RowStartsWithNumber(i, org, repo, a);
    RowStartsWithNumber(j, org, repo, b);
    if |di| == |dj| {
      assert di != dj by {
        if di == dj {
          NatToStringInjective(i, j);
        }
      }
      assert ri[2..|di| + 2] != rj[2..|dj| + 2];
    } else if |di| < |dj| {
      assert ri[|di| + 2] != rj[|di| + 2] by {
        assert rj[|di| + 2] == dj[|di|];
      }
    } else {
      assert ri[|dj| + 2] != rj[|dj| + 2] by {
        assert ri[|dj| + 2] == di[|dj|];
      }
    }
  }

  /** The rows of a report are pairwise distinct. */
  lemma RowsAreDistinct(org: string, repo: string, alerts: seq<Alert>, i: nat, j: nat)
    requires i < j < |alerts|
    ensures Lines(org, repo, alerts)[i + 3] != Lines(org, repo, alerts)[j + 3]
  {
    var ls := Lines(org, repo, alerts);
    assert ls[i + 3] == Row(i + 1, org, repo, alerts[i]);
    assert ls[j + 3] == Row(j + 1, org, repo, alerts[j]);
    RowsWithDifferentNumbersDiffer(i + 1, j + 1, org, repo, alerts[i], alerts[j]);
  }

  /** The lines as the renderer accumulates them: the header, then a row
      appended for each alert in turn. */
  function Lines(org: string, repo: string, alerts: seq<Alert>): (r: seq<string>)
    ensures |r| == |alerts| + 3
    ensures r[0] == Title && r[1] == ColumnHeader && r[2] == Separator
    ensures forall k :: 0 <= k < |alerts| ==> r[k + 3] == Row(k + 1, org, repo, alerts[k])
    decreases |alerts|
  {
    if alerts == [] then [Title, ColumnHeader, Separator]
    else
      var n := |alerts|;
      assert forall k :: 0 <= k < n - 1 ==> alerts[..n - 1][k] == alerts[k];
      Lines(org, repo, alerts[..n - 1]) + [Row(n, org, repo, alerts[n - 1])]
  }

  /** The report text for decoded alerts. */
  function Render(org: string, repo: string, alerts: seq<Alert>): (r: string)
    ensures Title <= r
  {
    Join(Lines(org, repo, alerts), '\n')
  }

  /** What `generate_markdown_summary` returns or raises for a list of alert nodes. */
  function Summary(org: string, repo: string, nodes: seq<Json>): (r: Result<string>)
    ensures r.Ok? <==> forall k :: 0 <= k < |nodes| ==> AlertOf(nodes[k]).Ok?
    ensures r.Ok? ==> Title <= r.value
    ensures r.Err? ==>
      exists k :: 0 <= k < |nodes| && AlertOf(nodes[k]) == Err(r.error) &&
                  forall j :: 0 <= j < k ==> AlertOf(nodes[j]).Ok?
  {
    match DecodeAlerts(nodes)
    case Err(e) => Err(e)
    case Ok(alerts) => Ok(Render(org, repo, alerts))
  }

  /** `generate_markdown_summary`: starts from the three header lines, appends
      one row per alert node numbered from 1, and joins the lines. The first
      node whose lookup raises ends the call with that exception. */
  method GenerateMarkdownSummary(org: string, repo: string, nodes: seq<Json>) returns (r: Result<string>)
    ensures r == Summary(org, repo, nodes)
  {
    var lines := [Title, ColumnHeader, Separator];
    ghost var done: seq<Alert> := [];
    assert nodes[..0] == [];
    var i := 0;
    while i < |nodes|
      invariant 0 <= i <= |nodes|
      invariant DecodeAlerts(nodes[..i]) == Ok(done)
      invariant lines == Lines(org, repo, done)
    {
      var index := i + 1;
      var alert := AlertOf(nodes[i]);
      DecodeOneMore(nodes, i);
      if alert.Err? {
        FirstErrorDecides(nodes, i + 1);
        return Err(alert.error);
      }
      LinesOneMore(org, repo, done, alert.value);
      lines := lines + [Row(index, org, repo, alert.value)];
      done := done + [alert.value];
      i := i + 1;
    }
    assert nodes[..i] == nodes;
    r := Ok(Join(lines, '\n'));
  }

  /** Decoding one node more either appends its alert or raises its exception,
      unless an earlier node already raised. */
  lemma DecodeOneMore(nodes: seq<Json>, i: nat)
    requires i < |nodes|
    ensures DecodeAlerts(nodes[..i + 1]) ==
      match DecodeAlerts(nodes[..i])
      case Err(e) => Err(e)
      case Ok(alerts) =>
        match AlertOf(nodes[i])
        case Err(e) => Err(e)
        case Ok(a) => Ok(alerts + [a])
  {
    var o := Outcomes(nodes[..i + 1]);
    assert o[..i] == Outcomes(nodes[..i]);
    assert o[i] == AlertOf(nodes[i]);
  }

  /** Rendering one alert more appends its row, numbered one past the alerts before it. */
  lemma LinesOneMore(org: string, repo: string, alerts: seq<Alert>, a: Alert)
    ensures Lines(org, repo, alerts + [a]) == Lines(org, repo, alerts) + [Row(|alerts| + 1, org, repo, a)]
  {
    assert (alerts + [a])[..|alerts|] == alerts;
  }

  /** Once a prefix of the nodes raises, the whole list raises the same exception. */
  lemma FirstErrorDecides(nodes: seq<Json>, n: nat)
    requires n <= |nodes|
    requires DecodeAlerts(nodes[..n]).Err?
    ensures DecodeAlerts(nodes) == DecodeAlerts(nodes[..n])
  {
    assert Outcomes(nodes)[..n] == Outcomes(nodes[..n]);
    FirstFailureDecides(Outcomes(nodes), n);
  }

  /** Once a prefix of the outcomes holds a failure, later outcomes do not change the result. */
  lemma {:induction false} FirstFailureDecides(outcomes: seq<Result<Alert>>, n: nat)
    requires n <= |outcomes|
    requires Collect(outcomes[..n]).Err?
    ensures Collect(outcomes) == Collect(outcomes[..n])
    decreases |outcomes| - n
  {
    if n == |outcomes| {
      assert outcomes[..n] == outcomes;
    } else {
      var init := outcomes[..|outcomes| - 1];
      assert init[..n] == outcomes[..n];
      FirstFailureDecides(init, n);
    }
  }

  /** The table cells of a row, between its `|` characters. */
  function Cells(index: nat, org: string, repo: string, a: Alert): seq<string> {
    ["", Padded(NatToString(index)), Padded(org + "/" + repo),
     Padded(a.packageName), Padded(a.severity), Padded(a.summary), ""]
  }

  /** Seven cells joined by `|` hold six `|` characters, one between each pair. */
  lemma JoinSevenCells(c0: string, c1: string, c2: string, c3: string, c4: string, c5: string, c6: string)
    ensures Join([c0, c1, c2, c3, c4, c5, c6], '|') ==
      c0 + "|" + c1 + "|" + c2 + "|" + c3 + "|" + c4 + "|" + c5 + "|" + c6
  {
    JoinSnoc([c0], c1, '|');
    assert [c0] + [c1] == [c0, c1];
    JoinSnoc([c0, c1], c2, '|');
    assert [c0, c1] + [c2] == [c0, c1, c2];
    JoinSnoc([c0, c1, c2], c3, '|');
    assert [c0, c1, c2] + [c3] == [c0, c1, c2, c3];
    JoinSnoc([c0, c1, c2, c3], c4, '|');
    assert [c0, c1, c2, c3] + [c4] == [c0, c1, c2, c3, c4];
    JoinSnoc([c0, c1, c2, c3, c4], c5, '|');
    assert [c0, c1, c2, c3, c4] + [c5] == [c0, c1, c2, c3, c4, c5];
    JoinSnoc([c0, c1, c2, c3, c4, c5], c6, '|');
    assert [c0, c1, c2, c3, c4, c5] + [c6] == [c0, c1, c2, c3, c4, c5, c6];
  }

  /** A row is its seven cells joined by `|`: the fields stand in it verbatim, nothing escaped. */
  lemma RowIsJoinedCells(index: nat, org: string, repo: string, a: Alert)
    ensures Row(index, org, repo, a) == Join(Cells(index, org, repo, a), '|')
  {
    var c1, c2 := Padded(NatToString(index)), Padded(org + "/" + repo);
    var c3, c4, c5 := Padded(a.packageName), Padded(a.severity), Padded(a.summary);
    JoinSevenCells("", c1, c2, c3, c4, c5, "");
    assert Cells(index, org, repo, a) == ["", c1, c2, c3, c4, c5, ""];
    var body := "|" + c1 + "|" + c2 + "|" + c3 + "|" + c4 + "|" + c5 + "|";
    assert "" + "|" + c1 + "|" + c2 + "|" + c3 + "|" + c4 + "|" + c5 + "|" + "" == body;
  }

  /** A row holds no character that is not a digit and appears in none of its fields. */
  lemma RowHasNo(ch: char, index: nat, org: string, repo: string, a: Alert)
    requires !IsDigit(ch) && ch !in "| /"
    requires ch !in org && ch !in repo
    requires ch !in a.packageName && ch !in a.severity && ch !in a.summary
    ensures ch !in Row(index, org, repo, a)
  {
    NatToStringHasNo(index, ch);
  }

  /** When no field holds a `|`, cutting a row at its `|` characters recovers the
      row number and every field. */
  lemma RowSplitsIntoCells(index: nat, org: string, repo: string, a: Alert)
    requires '|' !in org && '|' !in repo
    requires '|' !in a.packageName && '|' !in a.severity && '|' !in a.summary
    ensures Split(Row(index, org, repo, a), '|') == Cells(index, org, repo, a)
  {
    RowIsJoinedCells(index, org, repo, a);
    NatToStringHasNo(index, '|');
    SplitJoin(Cells(index, org, repo, a), '|');
  }

  /** A `|` inside a summary is copied as it is and splits the row into an extra cell. */
  lemma PipeInSummaryAddsCell(index: nat, org: string, repo: string, a: Alert, left: string, right: string)
    requires '|' !in org && '|' !in repo && '|' !in a.packageName && '|' !in a.severity
    requires '|' !in left && '|' !in right && a.summary == left + "|" + right
    ensures |Split(Row(index, org, repo, a), '|')| == 8
  {
    var c := Cells(index, org, repo, a);
    var c' := ["", c[1], c[2], c[3], c[4], " " + left, right + " ", ""];
    RowWithPipeInSummary(index, org, repo, a, left, right);
    NatToStringHasNo(index, '|');
    assert forall k :: 0 <= k < |c'| ==> '|' !in c'[k];
    SplitJoin(c', '|');
  }

  /** The row of an alert whose summary holds one `|` is eight cells joined by `|`. */
  lemma RowWithPipeInSummary(index: nat, org: string, repo: string, a: Alert, left: string, right: string)
    requires a.summary == left + "|" + right
    ensures var c := Cells(index, org, repo, a);
      Row(index, org, repo, a) == Join(["", c[1], c[2], c[3], c[4], " " + left, right + " ", ""], '|')
  {
    var c := Cells(index, org, repo, a);
    RowIsJoinedCells(index, org, repo, a);
    assert c == c[..5] + [Padded(a.summary)] + [""];
    assert Padded(a.summary) == (" " + left) + "|" + (right + " ");
    JoinPartWithSeparator(c[..5], " " + left, right + " ", [""], '|');
    assert c[..5] + [" " + left, right + " "] + [""] == ["", c[1], c[2], c[3], c[4], " " + left, right + " ", ""];
  }

  /** With no alerts the report is the three header lines alone. */
  lemma RenderNoAlerts(org: string, repo: string)
    ensures Render(org, repo, []) ==
      Title + "\n" + ColumnHeader + "\n" + Separator
  {
    var ls := Lines(org, repo, []);
    JoinCons(ls[1], [ls[2]], '\n');
    JoinCons(ls[0], ls[1..], '\n');
    assert [ls[1], ls[2]] == ls[1..];
    assert [ls[0]] + ls[1..] == ls;
  }

  /** One more alert adds one line break and its row at the end of the report:
      no line break ever trails, and rows follow the input order. */
  lemma RenderSnoc(org: string, repo: string, alerts: seq<Alert>, a: Alert)
    ensures Render(org, repo, alerts + [a]) ==
      Render(org, repo, alerts) + "\n" + Row(|alerts| + 1, org, repo, a)
  {
    assert (alerts + [a])[..|alerts|] == alerts;
    JoinSnoc(Lines(org, repo, alerts), Row(|alerts| + 1, org, repo, a), '\n');
  }

  /** A report of one alert is the header lines and that alert's row numbered 1. */
  lemma RenderOneAlert(org: string, repo: string, a: Alert)
    ensures Render(org, repo, [a]) ==
      Title + "\n" + ColumnHeader + "\n" + Separator + "\n" + Row(1, org, repo, a)
  {
    RenderSnoc(org, repo, [], a);
    assert [] + [a] == [a];
    RenderNoAlerts(org, repo);
  }

  /** None of the three header lines holds a line break. */
  lemma HeaderHasNoLineBreak()
    ensures '\n' !in Title && '\n' !in ColumnHeader && '\n' !in Separator
  {
    assert '\n' !in "| S.No " && '\n' !in "| Org/Repo Name " && '\n' !in "| Package Name ";
    assert '\n' !in "| Severity " && '\n' !in "| Summary " && '\n' !in "| ";
    assert '\n' !in "| ---- " && '\n' !in "| ------------- " && '\n' !in "| ------------ ";
    assert '\n' !in "| -------- " && '\n' !in "| ------- ";
  }

  /** When no field holds a line break, cutting the report at its line breaks gives
      exactly the header lines and one row per alert. */
  lemma RenderSplitsIntoLines(org: string, repo: string, alerts: seq<Alert>)
    requires '\n' !in org && '\n' !in repo
    requires forall k :: 0 <= k < |alerts| ==>
      '\n' !in alerts[k].packageName && '\n' !in alerts[k].severity && '\n' !in alerts[k].summary
    ensures Split(Render(org, repo, alerts), '\n') == Lines(org, repo, alerts)
  {
    var ls := Lines(org, repo, alerts);
    forall k | 0 <= k < |ls| ensures '\n' !in ls[k] {
      if k >= 3 {
        assert ls[k] == Row(k - 2, org, repo, alerts[k - 3]);
        RowHasNo('\n', k - 2, org, repo, alerts[k - 3]);
      } else {
        HeaderHasNoLineBreak();
      }
    }
    SplitJoin(ls, '\n');
  }
}
