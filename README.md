# Code scanning alerts report — a Dafny model

The program fetches the code-scanning alerts of one repository through the
GraphQL API, in a single HTTPS POST. It reads the alert list out of the JSON
response at `data.repository.codeScanningAlerts.nodes`. If the list is empty,
it prints a notice and stops. Otherwise it renders a markdown table and
writes it to `codescanning_vulnerability_report.md`. The table has a heading
line, a column-header line, a separator line and one numbered row per alert.

This project models the decision-making part of that pipeline:

- `Json` — the decoded JSON value, and Python's `value[key]` on it (a
  KeyError for a dictionary that lacks the key, a TypeError for anything that
  is not a dictionary). It also gives the truth value used by `not alerts`
  and `str()` of the scalars an f-string can print.
- `GraphQL` — `execute_graphql_query` as a function of the HTTP response. Any
  status other than 200 raises an exception whose message carries the status
  and the body. `fetch_code_scanning_alerts` reads the fixed key path.
- `Markdown` — `generate_markdown_summary`. It is an imperative method: it
  starts from the three header lines, appends one row per alert node while it
  enumerates them from 1, and joins the lines with `"\n"`. It is proved equal
  to the specification function `Summary`. Lemmas about `Lines`, `Render` and
  `Row` state the header text, the line count, the row format and numbering,
  the order of rows, the lack of a trailing newline, and that fields are
  copied verbatim.
- `Pipeline` — `main`'s gate. A falsy alert value writes nothing. Otherwise
  the text written is the text rendered. Any exception on the way ends the
  run with nothing written.
- `Decimal` and `Text` — `str(int)`, `"\n".join` and their inverses (parsing
  digits back, `split`). The round-trip lemmas use them.

The model follows the code, including where it does more than its obvious
reading:
- The "empty list" gate is Python's truth test `not alerts`. So a `null`,
  `0`, `false`, `""` or `{}` under `nodes` also prints the notice and writes
  nothing.
- A truthy value that is not a list raises TypeError while it is iterated as
  alert records.
- The loop body subscripts `securityVulnerability` once per field and
  `advisory` twice. `Markdown.AlertOf` looks each level up once, and
  `Markdown.AlertOfIsTheLiteralChain` proves that it gives the same alert, or
  the same first exception, as the three full chains.
- Extraction fails with TypeError, not only with KeyError, when a level on
  the path holds a value that is not an object.

## Model

| member | source | states |
|---|---|---|
| `Decimal.NatToString` | main.py:68 | `str(index)`: at least one character, all decimal digits, no leading zero, one digit exactly for numbers below 10 |
| `Decimal.IntToString` | main.py:54 | `str(n)`: a minus sign exactly for a negative number, followed by the canonical digits of the magnitude (those of `Decimal.NatToString`: no leading zero), whose decimal value is the magnitude |
| `Decimal.DecimalRoundTrip` | main.py:68 | reading the printed row number back as decimal digits gives the number |
| `Decimal.NatToStringInjective` | main.py:62-68 | different row numbers print as different text |
| `Text.Join` | main.py:70 | the joined text starts with the first line; `Text.SplitJoin` and `Text.JoinSplit` show that `Text.Split` inverts it |
| `Text.JoinSnoc` | main.py:70 | joining one more line adds exactly one `"\n"` and that line at the end |
| `Text.SplitJoin` | main.py:70 | splitting a join at the separator gives the joined lines back when none holds the separator |
| `Text.JoinSplit` | main.py:70 | joining the pieces of a split gives the string back (the other direction of the round trip) |
| `Json.Subscript` | main.py:46 | `j[key]` succeeds exactly on an object holding the key and returns its value; otherwise KeyError for that key on an object, TypeError on anything else |
| `Json.SubscriptPath` | main.py:46 | an empty chain returns the value itself; a failing chain raises TypeError or the KeyError of a key on the chain |
| `Json.Truthy` | main.py:78 | `not value` holds exactly for `null`, `false`, `0`, `""`, `[]` and `{}` |
| `Json.Str` | main.py:68 | an f-string field converts every scalar and no list or object: a string is copied as it is, `null` reads `None`, booleans `True` and `False`, integers as `Decimal.IntToString` |
| `Json.SubscriptPathThree` | main.py:63-65 | a three-key subscript chain raises the first exception of its three subscripts, or returns the value the last one reaches |
| `Json.SubscriptPathConcat` | main.py:46 | a chain of subscripts raises the first exception met on the way; otherwise the rest of the chain goes on from the value reached |
| `Json.SubscriptNest` | main.py:46 | subscripting along a key path through objects nested on that path returns the value at its end |
| `GraphQL.FailureMessage` | main.py:54 | the exception text is exactly the fixed 41-character prefix `Query failed to run by returning code of `, then the decimal status code, then `. `, then the response text, and nothing else |
| `GraphQL.ExecuteGraphqlQuery` | main.py:49-54 | succeeds exactly for status 200 with a JSON body and then returns that body; a 200 response whose body is not JSON raises JsonDecodeError; any other status raises QueryFailed with the message above |
| `GraphQL.FetchCodeScanningAlerts` | main.py:45-47 | succeeds exactly when the query succeeds and the whole key path can be subscripted |
| `GraphQL.FetchReadsThePath` | main.py:46 | extraction returns `v` exactly when `data`, `repository`, `codeScanningAlerts` and `nodes` are present, each level is an object, and `v` is the value under `nodes`, unchanged |
| `GraphQL.FetchNested` | main.py:46 | any value placed at `data.repository.codeScanningAlerts.nodes` is what extraction returns |
| `GraphQL.FetchFailsAtFirstMissingKey` | main.py:46 | the first key of the path missing from an object on the way is the KeyError raised; a level that is not an object raises TypeError |
| `Markdown.AlertOf` | main.py:63-65 | the lookups and conversions of one node raise only TypeError, Unrendered, or the KeyError of one of the six keys `securityVulnerability`, `package`, `name`, `advisory`, `severity`, `summary`; `Markdown.AlertOfIsTheLiteralChain` and `Markdown.AlertOfReadsStrings` state its value for any node |
| `Markdown.AlertOfIsTheLiteralChain` | main.py:63-68 | for every node, decoding equals the loop body as written: three full subscript chains from the node, then the three f-string conversions, so the alert and the first exception are the same |
| `Markdown.AlertOfReadsStrings` | main.py:63-68 | any node whose three paths hold strings decodes to exactly those strings, whatever other fields (`createdAt`, `closed`, `rule`) it carries |
| `Markdown.AlertOfAlertNode` | main.py:63-65 | the three lookups of an alert node built from package name, severity and summary return exactly those three strings |
| `Markdown.DecodeAlerts` | main.py:62-65 | the alerts come out one per node, in node order; decoding fails exactly when some node's lookups raise, and then with the error of the first such node |
| `Markdown.DecodeAlertNodes` | main.py:62-65 | decoding the nodes of a list of alerts gives back that list, in order |
| `Markdown.FirstErrorDecides` | main.py:62-65 | once an exception is raised for a node, the nodes after it do not change the outcome |
| `Markdown.DecodeOneMore` | main.py:62-65 | decoding one node more appends its alert, or raises its error when no earlier node raised |
| `Markdown.Row` | main.py:68 | a row opens and closes with the pipe character and adds exactly 17 fixed characters (six pipe characters, ten spaces and the slash) to the number and the five texts, so nothing is escaped or dropped; `Markdown.RowIsJoinedCells` and `Markdown.RowSplitsIntoCells` give its cells |
| `Markdown.RowStartsWithNumber` | main.py:68 | a row starts with the pipe character, a space, the row number and a space |
| `Markdown.RowsWithDifferentNumbersDiffer` | main.py:62-68 | two rows with different numbers are different text, whatever their fields hold |
| `Markdown.RowsAreDistinct` | main.py:62-69 | no two rows of one report are equal |
| `Markdown.Lines` | main.py:57-69 | N alerts give N + 3 lines: the heading, the column header and the separator, with the trailing spaces kept, then line k + 3 is the row of alert k numbered k + 1 |
| `Markdown.LinesOneMore` | main.py:67-69 | each further alert appends exactly one row at the end, numbered one past the rows before it |
| `Markdown.Render` | main.py:70 | the report starts with the heading line; `Markdown.RenderSnoc` and `Markdown.RenderSplitsIntoLines` give the rest |
| `Markdown.Summary` | main.py:56-70 | the renderer succeeds exactly when every node's lookups succeed, and the report then starts with the heading; otherwise it raises the exception of the first node whose lookups raise |
| `Markdown.GenerateMarkdownSummary` | main.py:56-70 | the loop returns the specified report for the alert nodes, or the exception of the first node whose lookups raise |
| `Markdown.RowIsJoinedCells` | main.py:67-68 | a row is its seven cells joined by the pipe character: the number, `org/repo` and the three fields, each padded by one space and copied verbatim |
| `Markdown.RowSplitsIntoCells` | main.py:67-68 | when no field holds a pipe character, cutting a row at its pipe characters recovers the number and every field |
| `Markdown.RowWithPipeInSummary` | main.py:65-68 | a summary holding a pipe character is copied into the row unchanged, so the row reads as eight cells |
| `Markdown.PipeInSummaryAddsCell` | main.py:65-68 | a pipe character inside a summary is not escaped and splits the row into eight cells instead of seven |
| `Markdown.RenderNoAlerts` | main.py:57-70 | with no alerts the text is the three header lines joined by line breaks and nothing more |
| `Markdown.RenderSnoc` | main.py:67-70 | one more alert adds a line break and its row at the end: rows keep the input order and no line break trails |
| `Markdown.RenderOneAlert` | main.py:57-70 | the report of one alert is the three header lines and that alert's row numbered 1 |
| `Markdown.RenderSplitsIntoLines` | main.py:57-70 | when no field holds a line break, splitting the report at line breaks gives exactly the header lines and one row per alert |
| `Pipeline.RunMain` | main.py:76-84 | the run ends with the notice, writing nothing, exactly when extraction succeeds with a falsy value; whatever it writes goes to the fixed file and is the rendered report of a non-empty alert list; an extraction failure ends it with that exception (QueryFailed for a status other than 200, JsonDecodeError for a 200 body that is not JSON, KeyError or TypeError on the key path); a non-empty list with a node whose lookups raise ends it with that node's exception |
| `Pipeline.EmptyListWritesNothing` | main.py:78-80 | an empty alert list renders nothing and writes nothing |
| `Pipeline.NonEmptyListWritesReport` | main.py:82-84 | a non-empty list whose nodes all decode writes the join of N + 3 lines, row k + 3 being node k's row numbered k + 1 |
| `Pipeline.NonListCrashes` | main.py:78-82 | a truthy `nodes` value that is not a list ends the run with TypeError and writes nothing |
| `Pipeline.FailedQueryWritesNothing` | main.py:49-54 | a status other than 200 ends the run with nothing written, and the message carries the status and the response text |
| `Pipeline.DecodedListWritesReport` | main.py:76-84 | a fetched non-empty list whose nodes all decode is written, as its rendered report, to the fixed file |
| `Pipeline.AlertNodesWriteTheirReport` | main.py:76-84 | a 200 response whose `nodes` are the nodes of a non-empty list of alerts writes the report of exactly those alerts to the fixed file |
| `Pipeline.SingleAlertReport` | main.py:76-84 | for `acme/widgets` with one alert (`lodash`, `HIGH`, `Prototype pollution`), the file is exactly the three header lines and one row numbered 1 that holds `acme/widgets`, `lodash`, `HIGH` and `Prototype pollution` |
| `Pipeline.SingleAlertText` | main.py:56-70 | the rendered text of that one-alert example, character for character |
| `Pipeline.SingleAlertRow` | main.py:67-68 | the row of that alert, cell by cell: number 1, `acme/widgets`, `lodash`, `HIGH`, `Prototype pollution`, each padded by one space |

## Left out

- Reading `INPUT_ORG_NAME`, `INPUT_REPO_NAME` and `INPUT_GITHUB_TOKEN` and building the request headers (main.py:6-14) is process configuration. The org and repo names are parameters. An unset variable, which Python would print as `None`, is not modelled.
- The HTTPS POST (main.py:50) and the GraphQL query text (main.py:17-40) are network I/O and an opaque constant. The response is an input: status, raw text, and the decoded body or "not JSON". Transport errors and hangs are not modelled.
- Printing the notice and the report (main.py:79, 83) and opening and writing the file (main.py:72-74, 84) are I/O. The outcome `Wrote(fileName, content)` names the file and text that would be written. `NothingToReport` stands for the notice.
- Alert fields that are fetched but never read (`createdAt`, `closed`, `rule.name`) are ignored, as the program ignores them.
- `Json.Str` and `Markdown.AlertOf`: a field value that is a JSON list or object is reported as the error `Unrendered`. Python would instead print its `repr`, which is not modelled. Strings, `null`, booleans and integers are printed as Python's `str` prints them.
- JSON numbers are integers only. Floating-point values are not modelled.
- Rendering twice with the same input gives the same text. The model's functions are deterministic, so this needs no lemma.
- The page size of 100 alerts is enforced by the remote service. The model accepts a list of any length.
