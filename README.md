# Redistribution client checker — a Dafny model

The script `app.py` audits the redistribution service of a Panorama controller. It runs
`show redistribution service status` over SSH and reads three fields from the output with
regular expressions: the service status, the SSL configuration and the number of clients.
If the service is "up" and still uses the default certificates, it asks Panorama for the
redistribution clients and adds each one as a child firewall of the controller. It then asks
each firewall for its redistribution-client status and its system information, builds one
record per firewall, and lays the records out as a table of headers and rows.

This project models that flow and proves what it computes:

- `outcomes.dfy`: the `Option` and `Result` wrappers, and the three exceptions the model lets
  end the script (`KeyError`, `TypeError`, `NameError`).
- `status_parser.dfy`: `parse_status_command_output`. Python's `re.search` is specified
  declaratively for patterns of the form `literal\s+(class+)`. A match is the leftmost start,
  then the greedy whitespace, then the greedy group. A search function is proved against that
  specification. The module also covers the SSL-config conversion (`lower()`, then
  `replace(" ", "_")`), `int()` on a digit string, and the dictionary the function returns.
  The search loop is a method proved equal to that dictionary.
- `gate.dfy`: the gate condition at app.py:145-148, including its short-circuit and the
  exceptions it can raise.
- `api_tree.dfy`: the parsed XML replies (`None`, text, dict or list) and Python's `[]`
  subscript on them.
- `fleet.dfy`: the Panorama object as a class whose `children` sequence `pan.add` extends.
  It also holds the entry normalisation that adds the clients as children, the record built
  for each child, the collection loop over `pan.children`, and the headers and rows of the
  table.
- `audit.dfy`: the whole run, from the status output, the client list and each device's
  replies to its outcome. The outcome is a table, a closed gate, or the exception that ended
  the script.

The SSH session, the XML library and the API calls are not modelled. Their results are
inputs: the status output is an `Option<string>` (`None` when nothing was received), and each
API reply is an already-parsed `ApiTree.Node`. Each device's two replies come from a function
`query: Device -> Replies`.

The model follows the code as written, including these behaviours a reader might not
expect:

- The gate reads `parsed_output["redistribution_status"]` first. `and` short-circuits, so a
  status other than "up" skips the audit even when the SSL line is missing. A missing status
  raises `KeyError`, and so does status "up" with no SSL line. A missing field is therefore
  not treated as "skip".
- When no output was received, `parsed_output` is never bound, and the gate raises
  `NameError` (app.py:124-145). This also happens when the connection failed or the output was
  empty.
- Nothing catches an exception in the collection loop (app.py:197-229). One firewall whose
  system information lacks a field ends the whole run. That firewall is not dropped from an
  otherwise complete table.
- The comment at app.py:144 says "is NOT `default_certificates`", but the code tests for
  equality. The comment at app.py:101 says "default_certs", but the conversion gives
  "default_certificates". The model follows the code in both places.

## Model

| member | source | states |
|---|---|---|
| StatusParser.Search | app.py:93 | `re.search` finds a match exactly when the pattern matches somewhere, and what it finds is the leftmost match, greedy in its whitespace and then in its group |
| StatusParser.FirstMatchUnique | app.py:93 | the first match is determined by the text and the pattern alone |
| StatusParser.Group | app.py:93-95 | `match.group(1)` is a non-empty run of the pattern's capture class |
| StatusParser.GroupPresentIffMatch | app.py:92-95 | a group is found exactly when the pattern matches somewhere in the text |
| StatusParser.GroupOfFirstMatch | app.py:93-95 | the group is the text captured by the first match |
| StatusParser.NormalizeSsl | app.py:98-101 | the converted SSL config has the capture's length, no space, no upper-case letter, `_` where the capture had a space and the lower-cased character elsewhere |
| StatusParser.NormalizeSslIdempotent | app.py:99-101 | converting a converted SSL config changes nothing |
| StatusParser.NormalizeSslDefaultCertificates | app.py:99-101 | "Default certificates" converts to "default_certificates", the value the gate waits for |
| StatusParser.ClientsGroupDigits | app.py:87 | the client-count group is all digits, so `int()` accepts it |
| StatusParser.DecimalValue | app.py:104 | `int()` of a digit string is a natural number below ten to the power of the digit count, and at least ten to the power of one less when the first digit is not zero |
| StatusParser.DecimalString | app.py:104 | the reference inverse of `int()` that `DecimalRoundTrip` is proved against (the script itself never calls `str(n)`): a non-empty digit string with no leading zero unless it is "0" |
| StatusParser.DecimalRoundTrip | app.py:104 | `int()` reads back every non-negative integer's decimal numeral |
| StatusParser.DecimalLeadingZero | app.py:104 | `int()` ignores a leading zero |
| StatusParser.StatusOf | app.py:82-106 | the parsed dictionary holds only the three keys; each key is present exactly when its group is, and holds the group, converted for the SSL config and read as a decimal number for the client count |
| StatusParser.SearchPatterns | app.py:91-95 | the search loop stores each pattern's group, unconverted, under its key, and nothing else |
| StatusParser.ParseStatusCommandOutput | app.py:82-106 | the function returns exactly the dictionary described by `StatusOf` |
| StatusParser.ParsedKeysExactlyMatched | app.py:84-95 | each key is present exactly when its pattern matches somewhere; no other key ever appears, and a missing match raises nothing |
| StatusParser.GreedyGroupEndsWithClass | app.py:93-95 | a greedy match's group is a non-empty stretch of its class; the character after it, if any, is outside the class, and only whitespace lies between the literal and the group |
| StatusParser.ParsedStatusIsWordRun | app.py:85 | the status is the whole run of word characters of the first match |
| StatusParser.ParsedSslIsRestOfLine | app.py:86 | the SSL config is the converted rest of the line after the first match's whitespace, up to the newline or the end of the text |
| StatusParser.ParsedClientsIsDecimal | app.py:103-104 | the client count is the non-negative decimal value of the first match's whole digit run |
| Gate.GateDecision | app.py:145-148 | the audit proceeds exactly when the status is "up" and the SSL config is "default_certificates"; a missing status raises `KeyError`, a status of "up" without an SSL config raises `KeyError`, and every other case skips |
| Gate.GateOnOutput | app.py:124-148 | the gate raises `NameError` on `parsed_output` exactly when no output or empty output was received, and proceeds exactly when the output's parsed status is "up" and its parsed SSL config is "default_certificates" |
| Gate.NoOutputRaisesNameError | app.py:124-146 | with no output, or empty output, the gate raises `NameError` on `parsed_output` |
| Gate.GateOnFirstMatches | app.py:145-148 | in terms of the first matches, the audit proceeds exactly when the status group is "up" and the SSL group converts to "default_certificates" |
| Gate.GateWithoutStatusRaises | app.py:146 | non-empty output without a status line raises `KeyError` |
| Gate.GateStatusNotUpSkips | app.py:145-148 | a status other than "up" skips the audit, whatever the SSL line says and even without one |
| Gate.GateUpWithoutSslRaises | app.py:145-147 | status "up" without an SSL line raises `KeyError` on the SSL key |
| ApiTree.Get | app.py:174-176 | a subscript gives the value exactly when the node is a dict holding the key; otherwise it raises `KeyError` (for a dict) or `TypeError` (for anything else) |
| Fleet.Controller.constructor | app.py:150-154 | a new Panorama object has no children |
| Fleet.Controller.Add | app.py:178 | `pan.add` appends the device as the last child |
| Fleet.Normalized | app.py:174-182 | a dict entry stands for itself alone, a list gives its elements, and only `None` cannot be iterated |
| Fleet.NormalizedIdempotent | app.py:174-182 | normalising the already normalised elements gives them back unchanged, in order |
| Fleet.HostScan | app.py:180-182 | the serials read are the `host` of each element in order, up to the first element whose subscript raises, and that element's exception is the one reported |
| Fleet.ClientScan | app.py:174-182 | the clients are read without error exactly when the reply holds an entry that can be iterated and each element it yields is a dict with a `host`, and then the serials are those hosts, in order; a missing entry raises its subscript's exception and a `None` entry raises `TypeError`, both before any serial is read |
| Fleet.TextEntryAddsNothing | app.py:179-182 | a string entry is iterated by character: an empty string adds no child, and any other raises `TypeError` on its first character before a child is added |
| Fleet.SingleEntryOneChild | app.py:174-178 | a single dict entry yields exactly one serial, its `host` |
| Fleet.ListEntryOneChildPerElement | app.py:179-182 | a list entry is read without error exactly when every element is a dict with a `host`, and then yields one serial per element, in order |
| Fleet.AddRedistributionClients | app.py:174-182 | the children grow by one device per serial read, in order, and the children that were already there stay; the exception that stops the reading is reported |
| Fleet.CopyFields | app.py:212-220 | the record's fields are the system-info values under their record keys, in order; otherwise the first missing key raises |
| Fleet.AssembleFact | app.py:210-227 | a record is made exactly when the replies carry all seven system fields and a client-query result; its keys are the eight record keys in order, the seven values are copied verbatim, and `redistr_server` is true exactly when the result is not `None` |
| Fleet.MissingSerialRaises | app.py:211-215 | system information that holds `hostname` and `ip-address` but no serial raises `KeyError("serial")`, and no partial record is made |
| Fleet.CollectAll | app.py:195-229 | the collection succeeds exactly when every child's record can be made, and it then holds one record per child, in child order; otherwise its exception is the first failing child's |
| Fleet.FirstFailureUnique | app.py:197-229 | at most one child is the first whose record fails |
| Fleet.CollectAllFailsWithPrefix | app.py:197-229 | once the children up to some point fail, the whole collection fails the same way |
| Fleet.CollectFacts | app.py:195-229 | the collection loop over `pan.children` returns exactly the collection above |
| Fleet.Headers | app.py:232 | the headers are empty when there are no records, and are otherwise the first record's keys in order |
| Fleet.Rows | app.py:235 | there is one row per record, and row i is record i's values in key order |
| Fleet.TableOfFacts | app.py:231-235 | the headers are empty exactly when there are no records, and are otherwise the record keys; row i is record i's values, and pairing it with the headers gives record i back |
| Fleet.CollectedTable | app.py:195-235 | the table of a successful collection has one row per child, in order, each holding that child's record values under the record keys |
| Audit.FleetOutcome | app.py:150-235 | once the gate has passed, the run makes a table exactly when every client is read and every client's record can be made, and it ends with the clients' exception when they cannot be read |
| Audit.AuditOutcome | app.py:115-235 | the run ends with the gate closed exactly when the gate skips; a table needs the gate to proceed, and a gate that raises ends the run with its exception |
| Audit.DecideGate | app.py:117-148 | the status output is parsed only when there is some, and the gate decision follows |
| Audit.AuditFleet | app.py:150-235 | the audit on a fresh controller ends with the table of the clients' records or with the first exception |
| Audit.RunAudit | app.py:115-235 | the script's steps, taken in order, produce the outcome of the whole run |
| Audit.ClosedGateIgnoresFleet | app.py:145-148 | when the gate does not let the audit through, Panorama's and the devices' replies make no difference to the outcome |
| Audit.FleetReportRows | app.py:174-235 | once the gate has passed, a table has one row per client, in order, holding that client's record values under the record keys |
| Audit.ReportIsOneRowPerClient | app.py:174-235 | a table is made only when the gate passed and every client was read; it then has one row per client, in order, holding that client's record values under the record keys |
| Audit.FailingDeviceCrashesRun | app.py:197-229 | when a client's record cannot be made, the run ends with the first such client's exception and no table |

## Left out

- Argument parsing and the configuration-file defaults (app.py:17-41), and logging
  (app.py:44-48): these are process plumbing with no effect on the outcome.
- The netmiko SSH session (app.py:51-79, 117-140): this is network I/O. The command output
  is an input, `None` when nothing was received.
- `parse_xml_response` (app.py:109-112): ElementTree and xmltodict are foreign libraries.
  The replies come in already parsed, as `ApiTree.Node` trees.
- The panos calls `refresh_system_info` and `op` (app.py:150-167, 198-210): these are network
  calls, and each reply is a given value. The failure that app.py:157-161 logs and then
  continues past has no effect on the outcome. Exceptions raised by `op` itself are not
  modelled.
- `show devices connected` (app.py:189-192): its reply is never used. Only the exception its
  call could raise would matter, and that is network behaviour.
- `tabulate` and `print` (app.py:238-240): this is an external formatter. The model stops at
  the headers and rows handed to it.
- Unicode: `\s`, `\w`, `\d` and `str.lower()` are modelled on ASCII only. Other characters are
  neither whitespace, word characters nor digits, and `lower()` changes only A-Z.
- `StatusParser.DecimalValue`: it does not model CPython's limit of 4300 digits on `int()` of
  a string, which raises `ValueError` beyond that limit.
- `Fleet.AddRedistributionClients`: the serial is passed to `Firewall` as read. The model does
  not follow what panos does with a non-string serial.
