/** The script's main flow (app.py:115-235): parse the status, pass the gate, add the clients as
    children, collect one record per child and lay the records out as a table. The status
    command's output, the client list and each device's replies are given values. */
module Audit {
  import opened Outcomes
  import ApiTree
  import StatusParser
  import Gate
  import Fleet

  /** How a run ends: the gate lets nothing through, the table is made, or an exception
      ends the script. */
  datatype RunOutcome =
    | GateClosed
    | Report(headers: seq<string>, rows: seq<seq<Fleet.Cell>>)
    | Crashed(error: ScriptError)

  /** The audit proper, once the gate has passed: the clients become the children of a fresh
      controller, then each child's record is collected and the table laid out. */
  function FleetOutcome(clients: ApiTree.Node, query: Fleet.Device -> Fleet.Replies): (o: RunOutcome)
    ensures !o.GateClosed?
    ensures o.Report? <==>
      && Fleet.ClientScan(clients).error.None?
      && forall i :: 0 <= i < |Fleet.ClientScan(clients).hosts| ==>
           Fleet.AssembleFact(query(Fleet.Device(Fleet.ClientScan(clients).hosts[i]))).Ok?
    ensures Fleet.ClientScan(clients).error.Some? ==> o == Crashed(Fleet.ClientScan(clients).error.value)
  {
    var scan := Fleet.ClientScan(clients);
    if scan.error.Some? then Crashed(scan.error.value)
    else
      var devices := Fleet.Devices(scan.hosts);
      assert forall i :: 0 <= i < |devices| ==> devices[i] == Fleet.Device(scan.hosts[i]);
      match Fleet.CollectAll(devices, query)
      case Err(e) => Crashed(e)
      case Ok(records) => Report(Fleet.Headers(records), Fleet.Rows(records))
  }

  /** The run for a given status output (`None` when no output was received), Panorama's client
      list, and what each device answers. */
  function AuditOutcome(status: Option<string>, clients: ApiTree.Node, query: Fleet.Device -> Fleet.Replies): (o: RunOutcome)
    ensures o.GateClosed? <==> Gate.GateOnOutput(status) == Gate.Skip
    ensures o.Report? ==> Gate.GateOnOutput(status) == Gate.Proceed
    ensures Gate.GateOnOutput(status).Raise? ==> o == Crashed(Gate.GateOnOutput(status).error)
  {
    match Gate.GateOnOutput(status)
    case Raise(e) => Crashed(e)
    case Skip => GateClosed
    case Proceed => FleetOutcome(clients, query)
  }

  /** app.py:117-148: the status output is parsed only when there is some, then the gate
      is evaluated. */
  method DecideGate(status: Option<string>) returns (decision: Gate.Decision)
    ensures decision == Gate.GateOnOutput(status)
  {
    if status.Some? && status.value != "" {
      var parsed := StatusParser.ParseStatusCommandOutput(status.value);
      decision := Gate.GateDecision(parsed);
    } else {
      decision := Gate.Raise(NameError("parsed_output"));
    }
  }

  /** app.py:150-235 on a fresh controller. */
  method AuditFleet(clients: ApiTree.Node, query: Fleet.Device -> Fleet.Replies) returns (outcome: RunOutcome)
    ensures outcome == FleetOutcome(clients, query)
  {
    var pan := new Fleet.Controller();
    var error := Fleet.AddRedistributionClients(pan, clients);
    if error.Some? {
      return Crashed(error.value);
    }
    assert pan.children == Fleet.Devices(Fleet.ClientScan(clients).hosts);
    var records := Fleet.CollectFacts(pan, query);
    if records.Err? {
      return Crashed(records.error);
    }
    return Report(Fleet.Headers(records.value), Fleet.Rows(records.value));
  }

  /** app.py:115-235 with its inputs given: the steps in the script's order. */
  method RunAudit(status: Option<string>, clients: ApiTree.Node, query: Fleet.Device -> Fleet.Replies)
    returns (outcome: RunOutcome)
    ensures outcome == AuditOutcome(status, clients, query)
  {
    var decision := DecideGate(status);
    match decision {
      case Raise(e) =>
        outcome := Crashed(e);
      case Skip =>
        outcome := GateClosed;
      case Proceed =>
        outcome := AuditFleet(clients, query);
    }
  }

  /** A gate that does not let the audit through decides the run alone: whatever Panorama and
      the devices would answer, no device is queried and no table is made. */
  lemma ClosedGateIgnoresFleet(status: Option<string>, clients: ApiTree.Node, query: Fleet.Device -> Fleet.Replies)
    requires Gate.GateOnOutput(status) != Gate.Proceed
    ensures AuditOutcome(status, clients, query) ==
      if Gate.GateOnOutput(status) == Gate.Skip then GateClosed
      else Crashed(Gate.GateOnOutput(status).error)
  {
  }

  /** The table of an audit that got through: one row per client, in order, the values of that
      client's record under the record's keys. */
  lemma FleetReportRows(clients: ApiTree.Node, query: Fleet.Device -> Fleet.Replies)
    requires FleetOutcome(clients, query).Report?
    ensures Fleet.ClientScan(clients).error.None?
    ensures var hosts := Fleet.ClientScan(clients).hosts;
      var table := FleetOutcome(clients, query);
      && |table.rows| == |hosts|
      && table.headers == (if hosts == [] then [] else Fleet.FactKeys)
      && forall i :: 0 <= i < |hosts| ==>
        var fact := Fleet.AssembleFact(query(Fleet.Device(hosts[i])));
        fact.Ok? && table.rows[i] == Fleet.Values(fact.value) && Fleet.Zip(table.headers, table.rows[i]) == fact.value
  {
    var hosts := Fleet.ClientScan(clients).hosts;
    var devices := Fleet.Devices(hosts);
    Fleet.CollectedTable(devices, query);
    assert forall i :: 0 <= i < |hosts| ==> devices[i] == Fleet.Device(hosts[i]);
  }

  /** A table is made only when the gate passed and every client was read, and it then has one
      row per client, in order: the values of that client's record, under the record's keys. */
  lemma ReportIsOneRowPerClient(status: Option<string>, clients: ApiTree.Node, query: Fleet.Device -> Fleet.Replies)
    requires AuditOutcome(status, clients, query).Report?
    ensures Gate.GateOnOutput(status) == Gate.Proceed
    ensures Fleet.ClientScan(clients).error.None?
    ensures var hosts := Fleet.ClientScan(clients).hosts;
      var table := AuditOutcome(status, clients, query);
      && |table.rows| == |hosts|
      && table.headers == (if hosts == [] then [] else Fleet.FactKeys)
      && forall i :: 0 <= i < |hosts| ==>
        var fact := Fleet.AssembleFact(query(Fleet.Device(hosts[i])));
        fact.Ok? && table.rows[i] == Fleet.Values(fact.value) && Fleet.Zip(table.headers, table.rows[i]) == fact.value
  {
    FleetReportRows(clients, query);
  }

  /** One device whose replies lack a field ends the run with the first such device's exception:
      there is no table of the devices that did answer. */
  lemma FailingDeviceCrashesRun(status: Option<string>, clients: ApiTree.Node, query: Fleet.Device -> Fleet.Replies, i: nat)
    requires Gate.GateOnOutput(status) == Gate.Proceed
    requires Fleet.ClientScan(clients).error.None?
    requires Fleet.FirstFailure(Fleet.Devices(Fleet.ClientScan(clients).hosts), query, i)
    ensures AuditOutcome(status, clients, query) ==
      Crashed(Fleet.AssembleFact(query(Fleet.Device(Fleet.ClientScan(clients).hosts[i]))).error)
  {
    var devices := Fleet.Devices(Fleet.ClientScan(clients).hosts);
    var r := Fleet.CollectAll(devices, query);
    assert r.Err?;
    var j :| Fleet.FirstFailure(devices, query, j) && Fleet.AssembleFact(query(devices[j])) == Err(r.error);
    Fleet.FirstFailureUnique(devices, query, i, j);
  }
}
