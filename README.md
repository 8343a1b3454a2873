# deleteApps: stale-application cleanup, modelled in Dafny

`deleteApps.py` is a maintenance script for a Sonatype IQ Server. It reads a
cutoff date (`YYYY-MM-DD`), lists every registered application, and looks up
each application's scan report history. It marks an application for deletion
when its most recent scan happened strictly before midnight UTC of the cutoff
date. It then shows the list, asks the operator to confirm and, on a "yes",
sends one delete request per marked application, counting successes and
failures.

The model covers `main()` (lines 86-204). It keeps the script's form: two
loops with accumulators (`Selection.SelectCandidates`, `Deletion.DeleteAll`)
and a straight-line driver (`Cleanup.Run`). Each is proved against recursive
specification functions, and the properties are lemmas about those functions.

- `Json`: decoded JSON values with Python's `dict.get` and truthiness rules.
  `Get` reads a missing key as `None`, the same as a JSON null. `GetOr` uses
  its default only when the key is absent, so a present `null` name stays `null`.
- `PyStr`: `str.strip()` with Python's whitespace set, `str.lower()`,
  `str.endswith`, and decimal formatting of the `UnnamedApp_Idx{n}` index.
- `ScanDate`: the order in which the timestamp parsers are tried, the cutoff
  instant, and calendar days. The parsers themselves are uninterpreted
  function parameters (`Parsers`). Instants are whole seconds since the epoch, UTC.
- `Selection`: the verdict on each application (`Classify`) and the selection
  loop. It also has the facts that the candidates are exactly the stale
  applications in input order, and that history requests go only to
  applications with a usable id.
- `Deletion`: the deletion loop and its tally. A delete request is
  accepted, refused with an error status, or raises in the transport; the
  last ends the run (see below).
- `Cleanup`: the confirmation gate and a whole run. The server is an oracle
  (`Server`). `Run` returns the run's trace of requests and prompts (`Event`).

Not every problem the script meets is skipped. Two end the run:

- An `evaluationDate` that is truthy but not a string reaches
  `datetime.fromisoformat`, which raises `TypeError`. Neither `except` clause
  catches it (deleteApps.py:141-166), so the run ends during selection. The
  model keeps this as the verdict `DateNotText` and the outcome `Crashed`, and
  makes no delete request in that case.
- When `requests.delete` itself raises (no connection, a timeout, an SSL
  failure, a bad URL), `response` is never bound. The handler's
  `response is not None` (deleteApps.py:71) then raises `UnboundLocalError`,
  which `main()` does not catch. The request was attempted, though it may
  not have reached the server. No later candidate is requested, and the
  tally is never reported. The model keeps this as the answer `Raised` and
  the outcome `DeleteCrashed`. A delete event in the trace therefore records
  an attempt.

## Model

| member | source | states |
|---|---|---|
| `Json.Truthy` | deleteApps.py:120 | a value is falsy exactly when it is `None`, `False`, `0`, the empty string, the empty list or the empty object |
| `Json.Get` | deleteApps.py:135 | a present key reads as its value; the result is `None` exactly when the key is missing or holds null |
| `Json.GetOr` | deleteApps.py:114-115 | a present key reads as its value, even a null one; only a missing key gives the default |
| `PyStr.LeadingSpaces` | deleteApps.py:190 | the length of the longest all-whitespace prefix (the part `strip()` removes on the left) |
| `PyStr.TrailingSpaces` | deleteApps.py:190 | the length of the longest all-whitespace suffix (the part `strip()` removes on the right) |
| `PyStr.Strip` | deleteApps.py:190 | the result is the input with its maximal whitespace prefix and suffix removed; it neither starts nor ends with whitespace |
| `PyStr.Lower` | deleteApps.py:190 | same length as the input; no upper-case letter is left, and every character is either kept or is an upper-case letter moved to its lower-case partner |
| `PyStr.LowerChar` | deleteApps.py:190 | the result is never an upper-case letter: an upper-case ASCII letter is moved to lower case and every other character is kept |
| `PyStr.EndsWith` | deleteApps.py:149 | true exactly when the string is some string followed by the given character |
| `PyStr.Decimal` | deleteApps.py:114 | the index is written as a non-empty string of decimal digits without a leading zero |
| `PyStr.DecimalRoundTrip` | deleteApps.py:114 | reading the digits of the formatted index gives the index back |
| `ScanDate.StrategiesTried` | deleteApps.py:141-163 | the ISO parse is always tried first. Exactly one fallback is tried, exactly when the ISO parse fails and the string ends in 'Z'. The fractional-seconds pattern is the fallback exactly when the string contains '.' |
| `ScanDate.FirstSuccess` | deleteApps.py:141-163 | trying strategies in order fails exactly when every strategy fails; otherwise the result is what one strategy returned, and every strategy before that one failed |
| `ScanDate.ParseScanDate` | deleteApps.py:141-163 | the parsed timestamp is the first success among the strategies tried, in order. A string whose ISO parse fails and which does not end in 'Z' is not parsed |
| `ScanDate.CutoffInstant` | deleteApps.py:86-90 | the cutoff fails exactly when the date does not parse. Otherwise it is midnight UTC of the parsed calendar day |
| `ScanDate.BeforeMidnightIffEarlierDay` | deleteApps.py:169-175 | a scan is before midnight of the cutoff day exactly when its calendar day (as recorded in `latest_scan`) is earlier |
| `Selection.ApiId` | deleteApps.py:118 | a usable (truthy) id is the application's own `id` field; a missing field reads as `None` |
| `Selection.DisplayName` | deleteApps.py:114 | a present `name` is kept as it is; otherwise the name is `UnnamedApp_Idx` followed by the index's canonical decimal digits (only digits, no leading zero, reading back as the index) |
| `Selection.DisplayPublicId` | deleteApps.py:115 | a present `publicId` is kept as it is; otherwise it is `UnknownPublicId` |
| `Selection.Classify` | deleteApps.py:118-178 | an application is skipped as missing an id exactly when its `id` is falsy, and as having no history exactly when it has an id and an empty history. It is skipped for lack of a date exactly when its latest report has no truthy `evaluationDate`. The run crashes on it exactly when that date is truthy but not a string, and it is skipped as unparsable exactly when the date is a non-empty string that no tried parser accepts. A stale or retained verdict carries the parsed instant; stale is strictly before the cutoff, retained is at or after it |
| `Selection.StaleIff` | deleteApps.py:118-178 | an application is stale exactly when it has a truthy id, a non-empty history, and a non-empty string `evaluationDate` in its first report, and that string parses to an instant strictly before the cutoff |
| `Selection.OnlyLatestReportConsulted` | deleteApps.py:130-139 | two histories that agree on emptiness and on their first report give the same verdict |
| `Selection.FirstAbort` | deleteApps.py:141-166 | the result is the first application from a given index on whose non-text timestamp raises the uncaught `TypeError`, or none if there is no such application |
| `Selection.IndicesWhereExact` | deleteApps.py:113 | the indices collected for a condition are exactly the indices below `n` that meet it, in strictly increasing order, which is the order of `enumerate(applications)` |
| `Selection.CandidatesAreStaleAppsInOrder` | deleteApps.py:110-179 | the candidate list lines up one-to-one with the indices of the stale applications, in input order, and every stale application is among them. Each entry copies the app's `id`, its name (default `UnnamedApp_Idx{index}`), its publicId (default `UnknownPublicId`) and the calendar day of its latest scan |
| `Selection.CandidatesBeforeCutoff` | deleteApps.py:118-176 | every candidate has a truthy id, and its latest scan day is before the cutoff day |
| `Selection.FetchesAreAppsWithIds` | deleteApps.py:118-128 | the history requests line up one-to-one with the applications that have a truthy id, in input order, and each request uses that application's id. An application without one triggers no request |
| `Selection.SelectCandidates` | deleteApps.py:110-179 | the loop stops at the first application whose timestamp raises `TypeError`, and only there. The candidates and history requests it returns are those of the applications it reached |
| `Deletion.FailuresCounted` | deleteApps.py:194-202 | among the first `n` requests, the ones not accepted are exactly `n` minus the accepted ones |
| `Deletion.FirstRaised` | deleteApps.py:62-73 | the result is the first request from a given position on whose transport raises, or none if no request raises |
| `Deletion.DeleteAll` | deleteApps.py:194-202 | the candidates' ids are requested once each, in list order, up to and including the first request that raises (all of them when none does), and the loop stops there. `deleted` counts the accepted requests among those answered before it, `failed` counts the rest of those, and the two add up to the number answered |
| `Cleanup.Confirmed` | deleteApps.py:190-192 | the reply confirms exactly when, after stripping, it is the three letters y, e, s in any letter case |
| `Cleanup.StripPadded` | deleteApps.py:190 | stripping whitespace-padded text returns the text, provided it neither starts nor ends with whitespace |
| `Cleanup.LeadingOfPadded` | deleteApps.py:190 | leading whitespace followed by a non-space is counted exactly |
| `Cleanup.TrailingOfPadded` | deleteApps.py:190 | trailing whitespace after a non-space is counted exactly |
| `Cleanup.PaddedYesConfirms` | deleteApps.py:190-192 | any capitalisation of "yes", with any whitespace around it, confirms |
| `Cleanup.TraceShape` | deleteApps.py:181-204 | in a trace assembled from an outcome, a prompt event appears only on an outcome reached after the prompt (`Cancelled`, `Completed`, `DeleteCrashed`), and a delete event only on `Completed` or `DeleteCrashed` |
| `Cleanup.Run` | deleteApps.py:86-204 | an unparsable cutoff ends the run before any request. An empty application list ends it after the list request. A non-text timestamp crashes the run at the first such application, and an empty candidate list ends it; both happen before any prompt. The trace is: list, history requests, the prompt (only when the candidate list is non-empty), then deletes (only on a confirmed reply, in candidate order). On a completed run every candidate is requested, `deleted` counts accepted requests, and `deleted + failed` is the number of candidates. When a delete request raises, the run ends right after that request |

## Left out

- HTTP transport (`get_all_applications`, `get_application_scan_history`, `delete_application`, deleteApps.py:22-74): these are network calls with `raise_for_status` and JSON decoding. They are modelled as the oracle `Cleanup.Server`. A failed list or history request is the empty list. A delete answered with an error status is `Refused`, and a delete whose transport raises is `Raised`.
- Server replies to deletes: `Deletion.Reply` is a function of the earlier attempts and the id. Any other server state is not modelled.
- Interactive input (`get_input_if_none`, `getpass`, `input`, deleteApps.py:14-20, 81-84, 190): the cutoff date and the confirmation reply are parameters of `Cleanup.Run`. The server URL, username and password only reach the transport, so they are not modelled.
- Global configuration variables (deleteApps.py:7-11, 77): replaced by immutable parameters.
- All console output, including the debug warning about the first record's id field (deleteApps.py:102-107) and the numbered list of candidates (deleteApps.py:185-187). It changes no state.
- Python's `datetime` (`fromisoformat`, `strptime`, `astimezone`, `replace`): the four parsers are uninterpreted `string -> Option<Instant>` parameters.
  - A naive ISO string is converted with the machine's local time zone. That dependence, and whether `strptime`'s `%Z` accepts a literal 'Z', are decided inside the oracle, not by this model.
- The `latest_scan` text (`strftime('%Y-%m-%d')`): kept as the calendar day number. Its formatting into year, month and day is not modelled.
- The `AttributeError` branch for Python before 3.7 (deleteApps.py:164-166): the model assumes a Python where `datetime.fromisoformat` exists.
- JSON shapes the script does not guard against are excluded by the model's types:
  - the application list and each history are lists of JSON objects;
  - JSON numbers are integers, so a float `id` such as `0.0` is not represented.
- `PyStr.LowerChar`: lowers ASCII letters only, for the same reason as the next line.
- `PyStr.Lower`: lower-cases ASCII letters only. Python's `str.lower` covers all of Unicode. The confirmation gate is unaffected, because no other character lowercases to 'y', 'e' or 's'.
- Interrupting the prompt (end of input, keyboard interrupt): not modelled.
