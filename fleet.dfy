/** The fleet side of the audit (app.py:150-235): the controller's child devices, the
    normalisation of the client list into children, the per-device fact records and the
    table they become. API replies are given values; nothing here talks to a device. */
module Fleet {
  import opened Outcomes
  import opened ApiTree

  /** A member firewall, `Firewall(serial=...)`: its serial is whatever `host` held. */
  datatype Device = Device(serial: Node)

  /** The Panorama object and the child devices added under it. */
  class Controller {
    var children: seq<Device>

    /** A fresh `Panorama(...)` has no children. */
    constructor ()
      ensures children == []
    {
      children := [];
    }

    /** `pan.add(firewall)`: the device becomes the last child. */
    method Add(device: Device)
      modifies this
      ensures children == old(children) + [device]
    {
      children := children + [device];
    }
  }

  function Devices(hosts: seq<Node>): (ds: seq<Device>)
    ensures |ds| == |hosts|
  {
    seq(|hosts|, k requires 0 <= k < |hosts| => Device(hosts[k]))
  }

  // ---------------------------------------------------------------------------
  // Normalising the client list into children (app.py:170-182)
  // ---------------------------------------------------------------------------

  /** `list_of_redist_clients["response"]["result"]["entry"]`. */
  function EntryOf(reply: Node): Result<Node> {
    var response :- Get(reply, "response");
    var result :- Get(response, "result");
    Get(result, "entry")
  }

  /** The elements app.py:174-182 takes from `entry`: a dict stands for itself alone; anything
      else is iterated, so a list gives its elements, a string its one-character strings, and
      `None`, which cannot be iterated, raises TypeError. */
  function Normalized(entry: Node): (r: Result<seq<Node>>)
    ensures entry.Dict? ==> r == Ok([entry])
    ensures entry.List? ==> r == Ok(entry.items)
    ensures entry.Text? ==> r.Ok? && |r.value| == |entry.text|
    ensures entry.Text? ==> forall k :: 0 <= k < |entry.text| ==> r.value[k] == Text([entry.text[k]])
    ensures r.Err? <==> entry.Null?
  {
    match entry
    case Dict(_) => Ok([entry])
    case List(items) => Ok(items)
    case Text(s) => Ok(seq(|s|, k requires 0 <= k < |s| => Text([s[k]])))
    case Null => Err(TypeError)
  }

  /** Normalising the normalised elements, held as a list, gives them back unchanged. */
  lemma NormalizedIdempotent(entry: Node)
    requires Normalized(entry).Ok?
    ensures Normalized(List(Normalized(entry).value)) == Normalized(entry)
  {
  }

  /** The serials read, in order, and the exception that stopped the reading, if any. */
  datatype Scan = Scan(hosts: seq<Node>, error: Option<ScriptError>)

  /** `each["host"]` for each element in turn, stopping at the first subscript that raises. */
  function HostScan(items: seq<Node>): (r: Scan)
    ensures |r.hosts| <= |items|
    ensures forall k :: 0 <= k < |r.hosts| ==> Get(items[k], "host") == Ok(r.hosts[k])
    ensures r.error.None? ==> |r.hosts| == |items|
    ensures r.error.Some? ==>
      |r.hosts| < |items| && Get(items[|r.hosts|], "host") == Err(r.error.value)
  {
    if items == [] then Scan([], None)
    else
      match Get(items[0], "host")
      case Err(e) => Scan([], Some(e))
      case Ok(host) =>
        var rest := HostScan(items[1..]);
        Scan([host] + rest.hosts, rest.error)
  }

  /** The reply holds an entry, the entry can be iterated, and every element it yields is a dict
      with a `host`. */
  ghost predicate ReadableEntry(reply: Node) {
    && EntryOf(reply).Ok?
    && Normalized(EntryOf(reply).value).Ok?
    && var items := Normalized(EntryOf(reply).value).value;
       forall k :: 0 <= k < |items| ==> items[k].Dict? && "host" in items[k].fields
  }

  /** The serials app.py:174-182 adds as children, and the exception that ends it, if any: all
      the hosts, in order, exactly when the entry is readable; no serial at all when the entry
      itself is missing or cannot be iterated. */
  function ClientScan(reply: Node): (r: Scan)
    ensures r.error.None? <==> ReadableEntry(reply)
    ensures r.error.None? ==>
      var items := Normalized(EntryOf(reply).value).value;
      |r.hosts| == |items| && forall k :: 0 <= k < |items| ==> r.hosts[k] == items[k].fields["host"]
    ensures EntryOf(reply).Err? ==> r == Scan([], Some(EntryOf(reply).error))
    ensures EntryOf(reply).Ok? && EntryOf(reply).value.Null? ==> r == Scan([], Some(TypeError))
  {
    match EntryOf(reply)
    case Err(e) => Scan([], Some(e))
    case Ok(entry) =>
      match Normalized(entry)
      case Err(e) => Scan([], Some(e))
      case Ok(items) => HostScan(items)
  }

  /** A single-dict entry yields exactly one serial, `entry["host"]`. */
  lemma SingleEntryOneChild(reply: Node, entry: Node)
    requires EntryOf(reply) == Ok(entry)
    requires entry.Dict? && "host" in entry.fields
    ensures ClientScan(reply) == Scan([entry.fields["host"]], None)
  {
    assert HostScan([entry]) == Scan([entry.fields["host"]], None) by {
      assert [entry][1..] == [];
    }
  }

  /** A list entry yields one serial per element, in order, when each element is a dict
      with a host; otherwise the first element that is not stops the scan with its error. */
  lemma ListEntryOneChildPerElement(reply: Node, items: seq<Node>)
    requires EntryOf(reply) == Ok(List(items))
    ensures ClientScan(reply).error.None? <==>
      forall k :: 0 <= k < |items| ==> items[k].Dict? && "host" in items[k].fields
    ensures ClientScan(reply).error.None? ==>
      |ClientScan(reply).hosts| == |items| &&
      forall k :: 0 <= k < |items| ==> ClientScan(reply).hosts[k] == items[k].fields["host"]
  {
    var scan := HostScan(items);
    if scan.error.Some? {
      assert Get(items[|scan.hosts|], "host").Err?;
    }
  }

  /** A string entry is iterated character by character: an empty one adds no child, and any
      other raises TypeError on its first character, `"x"["host"]`, before a child is added. */
  lemma TextEntryAddsNothing(reply: Node, text: string)
    requires EntryOf(reply) == Ok(Text(text))
    ensures ClientScan(reply) == if text == "" then Scan([], None) else Scan([], Some(TypeError))
  {
    if text != "" {
      assert Normalized(Text(text)).value[0] == Text([text[0]]);
    }
  }

  /** app.py:174-182: one child per redistribution client, appended to `pan` in order. The
      exception that ends the script, if any, is returned; the children added before it stay. */
  method AddRedistributionClients(pan: Controller, reply: Node) returns (error: Option<ScriptError>)
    modifies pan
    ensures error == ClientScan(reply).error
    ensures pan.children == old(pan.children) + Devices(ClientScan(reply).hosts)
  {
    var entry := EntryOf(reply);
    if entry.Err? {
      return Some(entry.error);
    }
    if entry.value.Dict? {
      var host := Get(entry.value, "host");
      if host.Err? {
        return Some(host.error);
      }
      pan.Add(Device(host.value));
      assert [entry.value][1..] == [];
      assert Devices([host.value]) == [Device(host.value)];
      return None;
    }
    var items := Normalized(entry.value);
    if items.Err? {
      return Some(items.error);
    }
    ghost var scan := HostScan(items.value);
    for i := 0 to |items.value|
      invariant i <= |scan.hosts|
      invariant pan.children == old(pan.children) + Devices(scan.hosts[..i])
    {
      var host := Get(items.value[i], "host");
      if host.Err? {
        assert scan.hosts[..i] == scan.hosts;
        return Some(host.error);
      }
      assert Devices(scan.hosts[..i + 1]) == Devices(scan.hosts[..i]) + [Device(host.value)];
      pan.Add(Device(host.value));
    }
    assert scan.hosts[..|items.value|] == scan.hosts;
    return None;
  }

  // ---------------------------------------------------------------------------
  // One fact record per device (app.py:197-229)
  // ---------------------------------------------------------------------------

  /** A record value: a system-info field as the reply held it, or the server flag. */
  datatype Cell = Info(node: Node) | Flag(flag: bool)

  /** A `fw` dict: its (key, value) pairs in insertion order. */
  type Record = seq<(string, Cell)>

  /** The seven system-info fields, as (record key, system-info key), in record order. */
  const SystemFields: seq<(string, string)> := [
    ("hostname", "hostname"),
    ("ipaddress", "ip-address"),
    ("serial", "serial"),
    ("model", "model"),
    ("sw_version", "sw-version"),
    ("app_version", "app-version"),
    ("device_cert_status", "device-certificate-status")
  ]

  const ServerKey := "redistr_server"

  /** The keys of every record, in order: the seven copied fields, then the server flag. */
  const FactKeys: seq<string> := [
    "hostname", "ipaddress", "serial", "model", "sw_version", "app_version",
    "device_cert_status", "redistr_server"
  ]

  /** What a device answers to the redistribution-client query and to the system-info query. */
  datatype Replies = Replies(clientQuery: Node, systemInfo: Node)

  /** `system_info["response"]["result"]["system"]`. */
  function SystemOf(systemInfo: Node): Result<Node> {
    var response :- Get(systemInfo, "response");
    var result :- Get(response, "result");
    Get(result, "system")
  }

  /** `redist_client_firewall_info["response"]["result"]`. */
  function ClientResultOf(clientQuery: Node): Result<Node> {
    var response :- Get(clientQuery, "response");
    Get(response, "result")
  }

  function Keys(record: Record): (keys: seq<string>)
    ensures |keys| == |record|
  {
    seq(|record|, k requires 0 <= k < |record| => record[k].0)
  }

  function Values(record: Record): (values: seq<Cell>)
    ensures |values| == |record|
  {
    seq(|record|, k requires 0 <= k < |record| => record[k].1)
  }

  /** The dict display `{key: fw_info[source], ...}`: values read in order, the first missing
      one raising. */
  function CopyFields(info: Node, fields: seq<(string, string)>): (r: Result<Record>)
    ensures r.Ok? <==> forall k :: 0 <= k < |fields| ==> Get(info, fields[k].1).Ok?
    ensures r.Ok? ==> |r.value| == |fields|
    ensures r.Ok? ==> forall k :: 0 <= k < |fields| ==>
      r.value[k] == (fields[k].0, Info(Get(info, fields[k].1).value))
    ensures r.Err? ==>
      exists k :: 0 <= k < |fields| && Get(info, fields[k].1) == Err(r.error) &&
        forall j :: 0 <= j < k ==> Get(info, fields[j].1).Ok?
  {
    if fields == [] then Ok([])
    else
      var value :- Get(info, fields[0].1);
      var rest :- CopyFields(info, fields[1..]);
      Ok([(fields[0].0, Info(value))] + rest)
  }

  /** The replies carry everything a record needs: a system dict with all seven fields, and a
      client-query result (null or not). */
  ghost predicate FactsAvailable(replies: Replies) {
    && SystemOf(replies.systemInfo).Ok?
    && (forall k :: 0 <= k < |SystemFields| ==>
          Get(SystemOf(replies.systemInfo).value, SystemFields[k].1).Ok?)
    && ClientResultOf(replies.clientQuery).Ok?
  }

  /** The body of the loop at app.py:197-229 for one device: the seven system-info fields
      copied under their record keys, then `redistr_server`, true exactly when the client
      query's result is not null. Any missing field raises instead of giving a record. */
  function AssembleFact(replies: Replies): (r: Result<Record>)
    ensures r.Ok? <==> FactsAvailable(replies)
    ensures r.Ok? ==> Keys(r.value) == FactKeys
    ensures r.Ok? ==> forall k :: 0 <= k < |SystemFields| ==>
      r.value[k].1 == Info(SystemOf(replies.systemInfo).value.fields[SystemFields[k].1])
    ensures r.Ok? ==>
      r.value[|SystemFields|].1 == Flag(ClientResultOf(replies.clientQuery).value != Null)
  {
    var info :- SystemOf(replies.systemInfo);
    var fields :- CopyFields(info, SystemFields);
    var result :- ClientResultOf(replies.clientQuery);
    var record := fields + [(ServerKey, Flag(result != Null))];
    assert Keys(record) == FactKeys;
    Ok(record)
  }

  /** A system-info reply without a serial, and with the fields before it, raises KeyError on
      "serial": no partial record is made. */
  lemma MissingSerialRaises(replies: Replies, info: Node)
    requires SystemOf(replies.systemInfo) == Ok(info)
    requires info.Dict? && "hostname" in info.fields && "ip-address" in info.fields
    requires "serial" !in info.fields
    ensures AssembleFact(replies) == Err(KeyError("serial"))
  {
    assert SystemFields[2].1 == "serial";
    var copied := CopyFields(info, SystemFields);
    assert copied.Err?;
    var k :| 0 <= k < |SystemFields| && Get(info, SystemFields[k].1) == Err(copied.error)
      && forall j :: 0 <= j < k ==> Get(info, SystemFields[j].1).Ok?;
    assert k == 2;
  }

  /** The records of the devices in order, or the first device's exception. */
  function CollectAll(devices: seq<Device>, query: Device -> Replies): (r: Result<seq<Record>>)
    ensures r.Ok? <==> forall i :: 0 <= i < |devices| ==> AssembleFact(query(devices[i])).Ok?
    ensures r.Ok? ==> |r.value| == |devices|
    ensures r.Ok? ==> forall i :: 0 <= i < |devices| ==> AssembleFact(query(devices[i])) == Ok(r.value[i])
    ensures r.Err? ==>
      exists i :: FirstFailure(devices, query, i) && AssembleFact(query(devices[i])) == Err(r.error)
  {
    if devices == [] then Ok([])
    else
      var init := devices[..|devices| - 1];
      var last := devices[|devices| - 1];
      assert forall i :: 0 <= i < |init| ==> init[i] == devices[i];
      match CollectAll(init, query)
      case Err(e) =>
        assert exists i :: FirstFailure(devices, query, i) && AssembleFact(query(devices[i])) == Err(e) by {
          var i :| FirstFailure(init, query, i) && AssembleFact(query(init[i])) == Err(e);
          assert FirstFailure(devices, query, i);
        }
        Err(e)
      case Ok(records) =>
        match AssembleFact(query(last))
        case Err(e) =>
          assert FirstFailure(devices, query, |devices| - 1);
          Err(e)
        case Ok(record) => Ok(records + [record])
  }

  /** Device `i` is the first whose record cannot be assembled. */
  ghost predicate FirstFailure(devices: seq<Device>, query: Device -> Replies, i: int) {
    && 0 <= i < |devices|
    && AssembleFact(query(devices[i])).Err?
    && forall j :: 0 <= j < i ==> AssembleFact(query(devices[j])).Ok?
  }

  /** At most one device is the first to fail. */
  lemma FirstFailureUnique(devices: seq<Device>, query: Device -> Replies, i: int, j: int)
    requires FirstFailure(devices, query, i) && FirstFailure(devices, query, j)
    ensures i == j
  {
  }

  /** Once a prefix of the devices fails, the whole collection fails the same way. */
  lemma {:induction false} CollectAllFailsWithPrefix(devices: seq<Device>, query: Device -> Replies, n: nat)
    requires n <= |devices|
    requires CollectAll(devices[..n], query).Err?
    ensures CollectAll(devices, query) == CollectAll(devices[..n], query)
    decreases |devices| - n
  {
    if n < |devices| {
      var longer := devices[..n + 1];
      assert longer[..n] == devices[..n];
      assert CollectAll(longer, query) == CollectAll(devices[..n], query);
      assert devices[..n + 1][..n + 1] == devices[..n + 1];
      CollectAllFailsWithPrefix(devices, query, n + 1);
    } else {
      assert devices[..n] == devices;
    }
  }

  /** The loop at app.py:195-229 over `pan.children`: one record per child, appended in order.
      Nothing in the loop catches, so the first exception ends the run with no list at all. */
  method CollectFacts(pan: Controller, query: Device -> Replies) returns (r: Result<seq<Record>>)
    ensures r == CollectAll(pan.children, query)
  {
    var records: seq<Record> := [];
    for i := 0 to |pan.children|
      invariant CollectAll(pan.children[..i], query) == Ok(records)
    {
      var fact := AssembleFact(query(pan.children[i]));
      assert pan.children[..i + 1][..i] == pan.children[..i];
      if fact.Err? {
        CollectAllFailsWithPrefix(pan.children, query, i + 1);
        return Err(fact.error);
      }
      records := records + [fact.value];
    }
    assert pan.children[..|pan.children|] == pan.children;
    return Ok(records);
  }

  // ---------------------------------------------------------------------------
  // The table (app.py:231-235)
  // ---------------------------------------------------------------------------

  /** `list(redis_client_list[0].keys()) if redis_client_list else []`. */
  function Headers(records: seq<Record>): (h: seq<string>)
    ensures records == [] ==> h == []
    ensures records != [] ==> h == Keys(records[0])
  {
    if records == [] then [] else Keys(records[0])
  }

  /** `[list(item.values()) for item in redis_client_list]`. */
  function Rows(records: seq<Record>): (rows: seq<seq<Cell>>)
    ensures |rows| == |records|
    ensures forall i :: 0 <= i < |records| ==> rows[i] == Values(records[i])
  {
    seq(|records|, i requires 0 <= i < |records| => Values(records[i]))
  }

  /** Pairs each header with the cell under it. */
  function Zip(headers: seq<string>, row: seq<Cell>): (record: Record)
    requires |headers| == |row|
    ensures |record| == |row|
  {
    seq(|row|, k requires 0 <= k < |row| => (headers[k], row[k]))
  }

  /** For assembled records the table is well aligned: the headers are empty exactly when there
      are no records and are otherwise the record keys; each row lines up with the headers and,
      paired with them, gives back its record. */
  lemma TableOfFacts(records: seq<Record>)
    requires forall i :: 0 <= i < |records| ==> Keys(records[i]) == FactKeys
    ensures Headers(records) == [] <==> records == []
    ensures records != [] ==> Headers(records) == FactKeys
    ensures |Rows(records)| == |records|
    ensures records != [] ==> forall i :: 0 <= i < |records| ==>
      |Rows(records)[i]| == |Headers(records)| && Zip(Headers(records), Rows(records)[i]) == records[i]
  {
    if records != [] {
      assert |Keys(records[0])| == |FactKeys|;
      forall i | 0 <= i < |records|
        ensures |Rows(records)[i]| == |Headers(records)|
        ensures Zip(Headers(records), Rows(records)[i]) == records[i]
      {
        var r := records[i];
        assert |Keys(r)| == |FactKeys|;
        assert forall k :: 0 <= k < |r| ==> r[k].0 == Keys(r)[k];
      }
    }
  }

  /** The table of a collection that succeeded: one row per device, in order, each the values
      of that device's record and giving the record back when paired with the headers, which
      are the record keys (none when there are no devices). */
  lemma CollectedTable(devices: seq<Device>, query: Device -> Replies)
    requires CollectAll(devices, query).Ok?
    ensures Headers(CollectAll(devices, query).value) == if devices == [] then [] else FactKeys
    ensures |Rows(CollectAll(devices, query).value)| == |devices|
    ensures forall i :: 0 <= i < |devices| ==>
      && AssembleFact(query(devices[i])).Ok?
      && Rows(CollectAll(devices, query).value)[i] == Values(AssembleFact(query(devices[i])).value)
      && Zip(Headers(CollectAll(devices, query).value), Rows(CollectAll(devices, query).value)[i])
         == AssembleFact(query(devices[i])).value
  {
    var records := CollectAll(devices, query).value;
    assert forall i :: 0 <= i < |records| ==> Keys(records[i]) == FactKeys by {
      forall i | 0 <= i < |records|
        ensures Keys(records[i]) == FactKeys
      {
        assert AssembleFact(query(devices[i])) == Ok(records[i]);
      }
    }
    TableOfFacts(records);
  }
}
