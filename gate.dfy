/** The audit gate (app.py:124-148): the parsed status decides whether the fleet audit runs. */
module Gate {
  import opened Outcomes
  import opened StatusParser

  /** What the `if` at app.py:145-148 does: enter the audit, fall through, or raise. */
  datatype Decision = Proceed | Skip | Raise(error: ScriptError)

  const StatusUp := Str("up")
  const DefaultCertificates := Str("default_certificates")

  /** `parsed["redistribution_status"] == "up" and parsed["ssl_config"] == "default_certificates"`
      (app.py:145-148). A subscript of a missing key raises KeyError, and `and` only evaluates
      its right operand when the left one holds, so a status other than "up" skips the audit
      even when the SSL config is missing. */
  function GateDecision(parsed: map<string, Field>): (d: Decision)
    ensures d == Proceed <==>
      && StatusKey in parsed && parsed[StatusKey] == StatusUp
      && SslKey in parsed && parsed[SslKey] == DefaultCertificates
    ensures d.Raise? <==> StatusKey !in parsed || (parsed[StatusKey] == StatusUp && SslKey !in parsed)
    ensures d.Raise? ==> d.error == KeyError(if StatusKey in parsed then SslKey else StatusKey)
  {
    if StatusKey !in parsed then Raise(KeyError(StatusKey))
    else if parsed[StatusKey] != StatusUp then Skip
    else if SslKey !in parsed then Raise(KeyError(SslKey))
    else if parsed[SslKey] == DefaultCertificates then Proceed
    else Skip
  }

  /** The gate from what the status command returned, `None` when the SSH connection or the
      command failed (app.py:117-148). Only a non-empty output binds `parsed_output`; otherwise
      the gate's first read of it raises NameError. */
  function GateOnOutput(output: Option<string>): (d: Decision)
    ensures d == Raise(NameError("parsed_output")) <==> output.None? || output.value == ""
    ensures d == Proceed <==>
      && output.Some? && output.value != ""
      && StatusKey in StatusOf(output.value) && StatusOf(output.value)[StatusKey] == StatusUp
      && SslKey in StatusOf(output.value) && StatusOf(output.value)[SslKey] == DefaultCertificates
  {
    if output.None? || output.value == "" then Raise(NameError("parsed_output"))
    else GateDecision(StatusOf(output.value))
  }

  /** Without usable output the script cannot even evaluate the gate. */
  lemma NoOutputRaisesNameError(output: Option<string>)
    requires output.None? || output.value == ""
    ensures GateOnOutput(output) == Raise(NameError("parsed_output"))
  {
  }

  /** With the first matches of the status and the SSL pattern in hand, the audit runs exactly
      when the status group is "up" and the SSL group normalises to "default_certificates". */
  lemma GateOnFirstMatches(text: string, status: Match, ssl: Match)
    requires IsFirstMatch(text, StatusPattern, status)
    requires IsFirstMatch(text, SslPattern, ssl)
    ensures GateOnOutput(Some(text)) == Proceed <==>
      && text[status.groupStart..status.groupEnd] == "up"
      && NormalizeSsl(text[ssl.groupStart..ssl.groupEnd]) == "default_certificates"
  {
    ParsedStatusIsWordRun(text, status);
    ParsedSslIsRestOfLine(text, ssl);
  }

  /** A non-empty text in which "Redistribution service:" is never followed by whitespace and
      a word raises KeyError at the gate. */
  lemma GateWithoutStatusRaises(text: string)
    requires text != ""
    requires !MatchesSomewhere(text, StatusPattern)
    ensures GateOnOutput(Some(text)) == Raise(KeyError(StatusKey))
  {
    ParsedKeysExactlyMatched(text);
  }

  /** A status other than "up" skips the audit whatever the rest of the text says, even when it
      has no SSL config line at all. */
  lemma GateStatusNotUpSkips(text: string, status: Match)
    requires IsFirstMatch(text, StatusPattern, status)
    requires text[status.groupStart..status.groupEnd] != "up"
    ensures GateOnOutput(Some(text)) == Skip
  {
    ParsedStatusIsWordRun(text, status);
  }

  /** Status "up" with no SSL config line raises KeyError on the SSL key. */
  lemma GateUpWithoutSslRaises(text: string, status: Match)
    requires IsFirstMatch(text, StatusPattern, status)
    requires text[status.groupStart..status.groupEnd] == "up"
    requires !MatchesSomewhere(text, SslPattern)
    ensures GateOnOutput(Some(text)) == Raise(KeyError(SslKey))
  {
    ParsedStatusIsWordRun(text, status);
    ParsedKeysExactlyMatched(text);
  }
}
