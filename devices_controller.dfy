/** The device API of Controllers/DevicesController.cs: adding a device (in full, quickly,
    or in bulk), pinging and updating a stored device, and the background port scan. */
module DevicesApi {
  import opened Common
  import opened DeviceStore

  // ---------------------------------------------------------------------------
  // Ping results and service names

  /** What Ping.SendPingAsync yields: a reply with the name of its IPStatus and its
      round-trip time, or an exception. */
  datatype PingReply = Replied(status: string, roundtripMs: int) | PingThrew

  datatype PingResult = PingResult(isReachable: bool, responseTime: int, status: string)

  const SuccessStatus: string := "Success"
  const PingFailedStatus: string := "Failed"

  /** PingDevice: reachable exactly on a Success reply, a response time only when
      reachable, and the fixed "Failed" result when the ping throws. */
  function PingDevice(reply: PingReply): (r: PingResult)
    ensures r.isReachable <==> reply.Replied? && reply.status == SuccessStatus
    ensures r.isReachable ==> r.responseTime == reply.roundtripMs
    ensures !r.isReachable ==> r.responseTime == 0
    ensures reply.Replied? ==> r.status == reply.status
    ensures reply.PingThrew? ==> r == PingResult(false, 0, PingFailedStatus)
  {
    match reply
    case Replied(status, rtt) =>
      var ok := status == SuccessStatus;
      PingResult(ok, if ok then rtt else 0, status)
    case PingThrew => PingResult(false, 0, PingFailedStatus)
  }

  /** The ports QuickAddDevice and ScanDevicePorts try, in this order. */
  const CommonPorts: seq<int> := [22, 23, 25, 53, 80, 110, 143, 443, 993, 995, 3389, 5985, 5986]

  const UnknownService: string := "Unknown"

  function GetServiceName(port: int): string
  {
    match port
    case 22 => "SSH"
    case 23 => "Telnet"
    case 25 => "SMTP"
    case 53 => "DNS"
    case 80 => "HTTP"
    case 110 => "POP3"
    case 143 => "IMAP"
    case 443 => "HTTPS"
    case 993 => "IMAPS"
    case 995 => "POP3S"
    case 3389 => "RDP"
    case 5985 => "WinRM HTTP"
    case 5986 => "WinRM HTTPS"
    case _ => UnknownService
  }

  /** Exactly the common ports have a name of their own; the list is strictly
      increasing and within the port range. */
  lemma ServiceNamesCoverCommonPorts(port: int)
    ensures GetServiceName(port) != UnknownService <==> port in CommonPorts
    ensures StrictlyIncreasing(CommonPorts)
    ensures forall p :: p in CommonPorts ==> PortInRange(p)
  {
  }

  /** The port stored for an open common port: TCP, named, enabled, Open. */
  function ScannedPort(deviceId: int, port: int, now: Time): MonitoredPort
  {
    MonitoredPort(deviceId, port, "TCP", GetServiceName(port), true, PortStatus.Open, now, now, now)
  }

  function ScannedPorts(deviceId: int, open: seq<int>, now: Time): (ps: seq<MonitoredPort>)
    ensures |ps| == |open|
  {
    seq(|open|, i requires 0 <= i < |open| => ScannedPort(deviceId, open[i], now))
  }

  lemma ScannedPortsAppend(deviceId: int, open: seq<int>, port: int, now: Time)
    ensures ScannedPorts(deviceId, open + [port], now) == ScannedPorts(deviceId, open, now) + [ScannedPort(deviceId, port, now)]
  {
  }

  /** Ports for distinct port numbers of one device have distinct keys. */
  lemma ScannedPortsDistinct(deviceId: int, open: seq<int>, now: Time)
    requires StrictlyIncreasing(open)
    ensures DistinctKeys(ScannedPorts(deviceId, open, now))
    ensures forall p :: p in ScannedPorts(deviceId, open, now) ==> p.deviceId == deviceId
  {
  }

  // ---------------------------------------------------------------------------
  // Replies

  /** The action results the endpoints return. */
  datatype Reply<T> =
    | Ok(value: T)
    | InvalidModel
    | BadRequest(error: string)
    | Conflict(error: string)
    | NotFound
    | ServerError(error: string)

  /** The tables after an action, and its reply. */
  datatype Outcome<T> = Outcome(db: Db, reply: Reply<T>)

  const InvalidIpError: string := "Invalid IP address format"
  const DuplicateIpError: string := "Device with this IP address already exists"
  const AlreadyExistsError: string := "Device already exists"
  const AddDeviceFailure: string := "Internal server error while adding device"
  const UnreachableMessage: string := "Device is not reachable"
  const StatusUpdatedMessage: string := "Device status updated successfully"

  // ---------------------------------------------------------------------------
  // AddDevice

  datatype PortRequest = PortRequest(port: int, protocol: Option<string>, serviceName: Option<string>)

  datatype AddDeviceRequest = AddDeviceRequest(
    ipAddress: string, hostname: Option<string>, monitoredPorts: Option<seq<PortRequest>>)

  datatype AddDeviceResponse = AddDeviceResponse(
    success: bool, deviceId: int, message: string, initialStatus: string, pingResponse: PingResult)

  /** A requested port: TCP and an empty service name unless given, enabled, Unknown. */
  function RequestedPort(deviceId: int, r: PortRequest, now: Time): MonitoredPort
  {
    MonitoredPort(deviceId, r.port, OrElse(r.protocol, "TCP"), OrElse(r.serviceName, ""), true,
                  PortStatus.Unknown, MinDate, now, now)
  }

  function RequestedPorts(deviceId: int, rs: Option<seq<PortRequest>>, now: Time): (ps: seq<MonitoredPort>)
  {
    if rs.None? then []
    else seq(|rs.value|, i requires 0 <= i < |rs.value| => RequestedPort(deviceId, rs.value[i], now))
  }

  /** The stored host name: the request's, else the address; when the device answers and
      the request gave none or an empty one, the DNS name if the lookup succeeds. */
  function InitialHostname(req: AddDeviceRequest, ping: PingResult, dns: Option<string>): string
  {
    if ping.isReachable && IsNullOrEmpty(req.hostname) && dns.Some? then dns.value
    else OrElse(req.hostname, req.ipAddress)
  }

  /** AddDevice. The model binder rejects a blank address; an address already stored is
      a conflict, checked before the address format; the device is stored Online or
      Offline as the ping says; the requested ports are saved together, and a clash on
      the unique port index fails that second save, leaving the device stored. */
  function AddDeviceEffect(db: Db, req: AddDeviceRequest, parses: string -> bool, reply: PingReply,
                           dns: Option<string>, now: Time): Outcome<AddDeviceResponse>
  {
    if IsNullOrWhiteSpace(Some(req.ipAddress)) then Outcome(db, InvalidModel)
    else if FindByIp(db.devices, req.ipAddress).Some? then Outcome(db, Conflict(DuplicateIpError))
    else if !parses(req.ipAddress) then Outcome(db, BadRequest(InvalidIpError))
    else
      var ping := PingDevice(reply);
      var hostname := InitialHostname(req, ping, dns);
      var status := if ping.isReachable then Online else Offline;
      var id := db.nextDeviceId;
      var stored := Inserted(db, hostname, req.ipAddress, status, Some(now), now);
      var ports := RequestedPorts(id, req.monitoredPorts, now);
      if !DistinctKeys(ports) then Outcome(stored, ServerError(AddDeviceFailure))
      else
        Outcome(stored.(ports := stored.ports + ports),
                Ok(AddDeviceResponse(true, id, "Device " + hostname + " added successfully", StatusName(status), ping)))
  }

  /** The checks come in this order, and a refused request changes nothing. */
  lemma AddDeviceRefusals(db: Db, req: AddDeviceRequest, parses: string -> bool, reply: PingReply, dns: Option<string>, now: Time)
    ensures var o := AddDeviceEffect(db, req, parses, reply, dns, now);
      (o.reply.InvalidModel? <==> IsNullOrWhiteSpace(Some(req.ipAddress)))
      && (o.reply.Conflict? <==> !IsNullOrWhiteSpace(Some(req.ipAddress)) && FindByIp(db.devices, req.ipAddress).Some?)
      && (o.reply.BadRequest? <==>
            !IsNullOrWhiteSpace(Some(req.ipAddress)) && FindByIp(db.devices, req.ipAddress).None? && !parses(req.ipAddress))
      && (o.reply.InvalidModel? || o.reply.Conflict? || o.reply.BadRequest? ==> o.db == db)
  {
  }

  /** An accepted request stores exactly one new device: Online with the ping, else
      Offline, seen now either way. A non-empty requested name is kept; a missing or
      empty one gives way to the DNS name when the device answers and the lookup
      succeeds; otherwise a missing name becomes the address and an empty one stays
      empty. The requested ports follow with their defaults unless two of
      them share a key, which fails with a server error and stores none. */
  lemma AddDeviceStores(db: Db, req: AddDeviceRequest, parses: string -> bool, reply: PingReply, dns: Option<string>, now: Time)
    requires !IsNullOrWhiteSpace(Some(req.ipAddress)) && FindByIp(db.devices, req.ipAddress).None? && parses(req.ipAddress)
    ensures var o := AddDeviceEffect(db, req, parses, reply, dns, now);
      var ping := PingDevice(reply);
      |o.db.devices| == |db.devices| + 1 && o.db.devices[..|db.devices|] == db.devices
      && o.db.devices[|db.devices|].ipAddress == req.ipAddress
      && o.db.devices[|db.devices|].id == db.nextDeviceId
      && (o.db.devices[|db.devices|].status == Online <==> ping.isReachable)
      && (o.db.devices[|db.devices|].status == Offline <==> !ping.isReachable)
      && o.db.devices[|db.devices|].lastSeen == Some(now)
      && (req.hostname.Some? && req.hostname.value != "" ==> o.db.devices[|db.devices|].hostname == req.hostname.value)
      && (req.hostname.None? && (!ping.isReachable || dns.None?) ==> o.db.devices[|db.devices|].hostname == req.ipAddress)
      && (ping.isReachable && IsNullOrEmpty(req.hostname) && dns.Some? ==> o.db.devices[|db.devices|].hostname == dns.value)
      && (req.hostname == Some("") && (!ping.isReachable || dns.None?) ==> o.db.devices[|db.devices|].hostname == "")
      && (o.reply.Ok? <==> DistinctKeys(RequestedPorts(db.nextDeviceId, req.monitoredPorts, now)))
      && (o.reply.Ok? ==> o.db.ports == db.ports + RequestedPorts(db.nextDeviceId, req.monitoredPorts, now)
                          && o.reply.value.deviceId == db.nextDeviceId)
      && (!o.reply.Ok? ==> o.reply == ServerError(AddDeviceFailure) && o.db.ports == db.ports)
  {
  }

  /** Each requested port is stored with protocol "TCP" and an empty service name
      when the request leaves them out, enabled and of unknown status. */
  lemma RequestedPortDefaults(deviceId: int, r: PortRequest, now: Time)
    ensures var p := RequestedPort(deviceId, r, now);
      p.port == r.port && p.deviceId == deviceId && p.isEnabled && p.status == PortStatus.Unknown
      && (r.protocol.None? ==> p.protocol == "TCP") && (r.protocol.Some? ==> p.protocol == r.protocol.value)
      && (r.serviceName.None? ==> p.serviceName == "") && (r.serviceName.Some? ==> p.serviceName == r.serviceName.value)
  {
  }

  /** AddDevice keeps the schema's constraints. */
  lemma AddDeviceKeepsValid(db: Db, req: AddDeviceRequest, parses: string -> bool, reply: PingReply, dns: Option<string>, now: Time)
    requires Valid(db)
    ensures Valid(AddDeviceEffect(db, req, parses, reply, dns, now).db)
  {
    if !IsNullOrWhiteSpace(Some(req.ipAddress)) && FindByIp(db.devices, req.ipAddress).None? && parses(req.ipAddress) {
      var ping := PingDevice(reply);
      var hostname := InitialHostname(req, ping, dns);
      var status := if ping.isReachable then Online else Offline;
      var ports := RequestedPorts(db.nextDeviceId, req.monitoredPorts, now);
      InsertKeepsValid(db, hostname, req.ipAddress, status, Some(now), now);
      if DistinctKeys(ports) {
        InsertWithPortsKeepsValid(db, hostname, req.ipAddress, status, Some(now), now, ports);
      }
    }
  }

  /** AddDevice on the context. */
  method AddDevice(ctx: DeviceContext, req: AddDeviceRequest, parses: string -> bool, reply: PingReply,
                   dns: Option<string>, now: Time) returns (r: Reply<AddDeviceResponse>)
    modifies ctx
    ensures ctx.Snapshot() == AddDeviceEffect(old(ctx.Snapshot()), req, parses, reply, dns, now).db
    ensures r == AddDeviceEffect(old(ctx.Snapshot()), req, parses, reply, dns, now).reply
  {
    if IsNullOrWhiteSpace(Some(req.ipAddress)) {
      return InvalidModel;
    }
    if FindByIp(ctx.devices, req.ipAddress).Some? {
      return Conflict(DuplicateIpError);
    }
    if !parses(req.ipAddress) {
      return BadRequest(InvalidIpError);
    }
    var ping := PingDevice(reply);
    var hostname := InitialHostname(req, ping, dns);
    var status := if ping.isReachable then Online else Offline;
    var id := ctx.Insert(hostname, req.ipAddress, status, Some(now), now);
    var ports := RequestedPorts(id, req.monitoredPorts, now);
    if !DistinctKeys(ports) {
      // the second save fails on the unique port index
      return ServerError(AddDeviceFailure);
    }
    ctx.AddPorts(ports);
    r := Ok(AddDeviceResponse(true, id, "Device " + hostname + " added successfully", StatusName(status), ping));
  }

  // ---------------------------------------------------------------------------
  // QuickAddDevice

  datatype QuickAddResponse = QuickAddResponse(
    success: bool, deviceId: int, hostname: string, message: string, openPorts: seq<int>, pingResult: PingResult)

  /** QuickAddDevice: the format is checked before the duplicate; an unreachable device
      is reported with Success false and not stored; otherwise it is stored Online with
      one Open TCP port per open common port, in list order. `open` says which ports
      accept a connection within the scan's timeout. */
  function QuickAddEffect(db: Db, ip: string, parses: string -> bool, reply: PingReply, dns: Option<string>,
                          open: int -> bool, now: Time): Outcome<QuickAddResponse>
  {
    if !parses(ip) then Outcome(db, BadRequest(InvalidIpError))
    else if FindByIp(db.devices, ip).Some? then Outcome(db, Conflict(AlreadyExistsError))
    else
      var ping := PingDevice(reply);
      if !ping.isReachable then Outcome(db, Ok(QuickAddResponse(false, 0, "", UnreachableMessage, [], ping)))
      else
        var hostname := OrElse(dns, ip);
        var openPorts := Filter(CommonPorts, open);
        var id := db.nextDeviceId;
        var stored := Inserted(db, hostname, ip, Online, Some(now), now);
        Outcome(stored.(ports := stored.ports + ScannedPorts(id, openPorts, now)),
                Ok(QuickAddResponse(true, id, hostname,
                                    "Device added with " + NatToString(|openPorts|) + " monitored ports", openPorts, ping)))
  }

  /** Validation comes first and refusals change nothing; an unreachable device is
      reported unsuccessful and nothing is stored. */
  lemma QuickAddRefusals(db: Db, ip: string, parses: string -> bool, reply: PingReply, dns: Option<string>, open: int -> bool, now: Time)
    ensures var o := QuickAddEffect(db, ip, parses, reply, dns, open, now);
      (o.reply.BadRequest? <==> !parses(ip))
      && (o.reply.Conflict? <==> parses(ip) && FindByIp(db.devices, ip).Some?)
      && (!o.reply.Ok? ==> o.db == db)
      && (o.reply.Ok? ==> (o.reply.value.success <==> PingDevice(reply).isReachable))
      && (o.reply.Ok? && !o.reply.value.success ==> o.db == db && o.reply.value.message == UnreachableMessage)
  {
  }

  /** A successful quick add stores one Online device and exactly the open common
      ports, in list order, each Open over TCP with its service name; the reply lists
      the same ports. */
  lemma QuickAddStoresOpenPorts(db: Db, ip: string, parses: string -> bool, reply: PingReply, dns: Option<string>, open: int -> bool, now: Time)
    requires parses(ip) && FindByIp(db.devices, ip).None? && PingDevice(reply).isReachable
    ensures var o := QuickAddEffect(db, ip, parses, reply, dns, open, now);
      var added := o.db.ports[|db.ports|..];
      o.reply.Ok? && o.reply.value.success
      && |o.db.devices| == |db.devices| + 1 && o.db.devices[|db.devices|].status == Online
      && o.db.ports[..|db.ports|] == db.ports
      && |added| == Count(CommonPorts, open)
      && (forall k :: 0 <= k < |added| ==>
            (added[k].port == o.reply.value.openPorts[k]
             && added[k].status == PortStatus.Open && added[k].protocol == "TCP"
             && added[k].serviceName == GetServiceName(added[k].port) && PortInRange(added[k].port)))
      && (forall p :: p in o.reply.value.openPorts <==> p in CommonPorts && open(p))
      && StrictlyIncreasing(o.reply.value.openPorts)
  {
    OpenPortsFacts(open);
    var o := QuickAddEffect(db, ip, parses, reply, dns, open, now);
    assert o.db.ports[|db.ports|..] == ScannedPorts(db.nextDeviceId, Filter(CommonPorts, open), now);
  }

  /** The open common ports: exactly the common ports that answer, in increasing order,
      all in the port range. */
  lemma OpenPortsFacts(open: int -> bool)
    ensures var ps := Filter(CommonPorts, open);
      (forall p :: p in ps <==> p in CommonPorts && open(p))
      && StrictlyIncreasing(ps) && |ps| == Count(CommonPorts, open)
      && (forall k :: 0 <= k < |ps| ==> PortInRange(ps[k]))
  {
    ServiceNamesCoverCommonPorts(0);
    FilterIncreasing(CommonPorts, open);
    FilterExactly(CommonPorts, open);
    var ps := Filter(CommonPorts, open);
    forall k | 0 <= k < |ps|
      ensures PortInRange(ps[k])
    {
      assert ps[k] in ps;
    }
  }


  /** QuickAddDevice keeps the schema's constraints. */
  lemma QuickAddKeepsValid(db: Db, ip: string, parses: string -> bool, reply: PingReply, dns: Option<string>, open: int -> bool, now: Time)
    requires Valid(db)
    ensures Valid(QuickAddEffect(db, ip, parses, reply, dns, open, now).db)
  {
    if parses(ip) && FindByIp(db.devices, ip).None? && PingDevice(reply).isReachable {
      var openPorts := Filter(CommonPorts, open);
      FilterIncreasing(CommonPorts, open);
      ScannedPortsDistinct(db.nextDeviceId, openPorts, now);
      InsertWithPortsKeepsValid(db, OrElse(dns, ip), ip, Online, Some(now), now, ScannedPorts(db.nextDeviceId, openPorts, now));
    }
  }

  /** The scan loop of QuickAddDevice: the open ports of the list, in order. */
  method OpenCommonPorts(open: int -> bool) returns (found: seq<int>)
    ensures found == Filter(CommonPorts, open)
  {
    found := [];
    var i := 0;
    while i < |CommonPorts|
      invariant 0 <= i <= |CommonPorts|
      invariant found == Filter(CommonPorts[..i], open)
    {
      assert CommonPorts[..i + 1][..i] == CommonPorts[..i];
      if open(CommonPorts[i]) {
        found := found + [CommonPorts[i]];
      }
      i := i + 1;
    }
    assert CommonPorts[..i] == CommonPorts;
  }

  /** QuickAddDevice on the context. */
  method QuickAddDevice(ctx: DeviceContext, ip: string, parses: string -> bool, reply: PingReply,
                        dns: Option<string>, open: int -> bool, now: Time) returns (r: Reply<QuickAddResponse>)
    modifies ctx
    ensures ctx.Snapshot() == QuickAddEffect(old(ctx.Snapshot()), ip, parses, reply, dns, open, now).db
    ensures r == QuickAddEffect(old(ctx.Snapshot()), ip, parses, reply, dns, open, now).reply
  {
    if !parses(ip) {
      return BadRequest(InvalidIpError);
    }
    if FindByIp(ctx.devices, ip).Some? {
      return Conflict(AlreadyExistsError);
    }
    var ping := PingDevice(reply);
    if !ping.isReachable {
      return Ok(QuickAddResponse(false, 0, "", UnreachableMessage, [], ping));
    }
    var hostname := OrElse(dns, ip);
    var openPorts := OpenCommonPorts(open);
    var id := ctx.Insert(hostname, ip, Online, Some(now), now);
    var ports := ScannedPorts(id, openPorts, now);
    ctx.AddPorts(ports);
    r := Ok(QuickAddResponse(true, id, hostname,
                             "Device added with " + NatToString(|openPorts|) + " monitored ports", openPorts, ping));
  }

  // ---------------------------------------------------------------------------
  // GetAllDevices

  /** The order of GetAllDevices: most recently seen first. SQLite sorts a null LastSeen
      below every date, so devices never seen come last. */
  function RecencyKey(d: Device): int
  {
    if d.lastSeen.Some? then -d.lastSeen.value else 1 - MinDate
  }

  /** A stored port of a stored device. Loading both with Include makes EF Core set the
      port's Device back-reference, so the device and the port refer to each other. */
  predicate HasBackReference(db: Db)
  {
    exists p :: p in db.ports && p.deviceId in DeviceIds(db.devices)
  }

  /** GetAllDevices as written: every device, most recently seen first, or None for the
      500 that System.Text.Json's object-cycle error gives. No reference handler is
      configured, so any device-port pair loaded together is such a cycle. */
  function GetAllDevices(db: Db): (r: Option<seq<Device>>)
    ensures r.Some? ==> multiset(r.value) == multiset(db.devices) && SortedBy(r.value, RecencyKey)
  {
    if HasBackReference(db) then None else Some(SortBy(db.devices, RecencyKey))
  }

  /** The device list as evidently intended: the same query with the back-references
      left out of the JSON (as `ReferenceHandler.IgnoreCycles` does), so it never fails. */
  function ListedDevices(db: Db): (r: seq<Device>)
    ensures multiset(r) == multiset(db.devices) && SortedBy(r, RecencyKey)
  {
    SortBy(db.devices, RecencyKey)
  }

  /** On a consistent database the list as written fails exactly when some port is
      stored, and otherwise agrees with the intended list. */
  lemma DeviceListFailure(db: Db)
    requires Valid(db)
    ensures GetAllDevices(db).None? <==> |db.ports| > 0
    ensures GetAllDevices(db).Some? ==> GetAllDevices(db).value == ListedDevices(db)
  {
    if |db.ports| > 0 {
      assert db.ports[0] in db.ports;
    }
  }

  /** A quick add that finds one open port makes the device list fail from then on. */
  lemma QuickAddBreaksDeviceList(db: Db, ip: string, parses: string -> bool, reply: PingReply, dns: Option<string>,
                                 open: int -> bool, now: Time, port: int)
    requires parses(ip) && FindByIp(db.devices, ip).None? && PingDevice(reply).isReachable
    requires port in CommonPorts && open(port)
    ensures GetAllDevices(QuickAddEffect(db, ip, parses, reply, dns, open, now).db).None?
  {
    var o := QuickAddEffect(db, ip, parses, reply, dns, open, now);
    var id := db.nextDeviceId;
    var openPorts := Filter(CommonPorts, open);
    FilterExactly(CommonPorts, open);
    assert port in openPorts;
    assert |openPorts| > 0;
    var stored := Inserted(db, OrElse(dns, ip), ip, Online, Some(now), now);
    assert o.db == stored.(ports := stored.ports + ScannedPorts(id, openPorts, now));
    var added := ScannedPorts(id, openPorts, now);
    assert added[0].deviceId == id;
    assert o.db.ports[|stored.ports|] == added[0];
    assert stored.devices[|db.devices|].id == id;
    assert id in DeviceIds(o.db.devices);
  }

  // ---------------------------------------------------------------------------
  // BulkImportDevices

  datatype BulkDeviceData = BulkDeviceData(ipAddress: string, hostname: Option<string>)

  datatype BulkImportResult = BulkImportResult(ipAddress: string, success: bool, deviceId: int, error: Option<string>)

  datatype BulkImportResponse = BulkImportResponse(totalRequested: int, successfullyAdded: int, results: seq<BulkImportResult>)

  predicate Succeeded(r: BulkImportResult) { r.success }

  /** One entry of a bulk import: a malformed address or one already stored (earlier in
      the same batch included) is reported; otherwise the device is stored Unknown. */
  function ImportOne(db: Db, item: BulkDeviceData, parses: string -> bool, now: Time): Outcome<BulkImportResult>
  {
    if !parses(item.ipAddress) then
      Outcome(db, Ok(BulkImportResult(item.ipAddress, false, 0, Some(InvalidIpError))))
    else if FindByIp(db.devices, item.ipAddress).Some? then
      Outcome(db, Ok(BulkImportResult(item.ipAddress, false, 0, Some(AlreadyExistsError))))
    else
      Outcome(Inserted(db, OrElse(item.hostname, item.ipAddress), item.ipAddress, DeviceStatus.Unknown, Some(now), now),
              Ok(BulkImportResult(item.ipAddress, true, db.nextDeviceId, None)))
  }

  /** The tables and the results after importing a batch. */
  datatype Batch = Batch(db: Db, results: seq<BulkImportResult>)

  function Imported(db: Db, items: seq<BulkDeviceData>, parses: string -> bool, now: Time): (b: Batch)
    decreases |items|
  {
    if |items| == 0 then Batch(db, [])
    else
      var before := Imported(db, items[..|items| - 1], parses, now);
      var o := ImportOne(before.db, items[|items| - 1], parses, now);
      Batch(o.db, before.results + [o.reply.value])
  }

  /** One result per entry, in order, naming its address; the devices stored before stay
      in front, and one device is added per successful result. */
  lemma {:induction false} ImportedShape(db: Db, items: seq<BulkDeviceData>, parses: string -> bool, now: Time)
    ensures var b := Imported(db, items, parses, now);
      |b.results| == |items|
      && (forall k :: 0 <= k < |items| ==> b.results[k].ipAddress == items[k].ipAddress)
      && |b.db.devices| == |db.devices| + Count(b.results, Succeeded)
      && b.db.devices[..|db.devices|] == db.devices
      && b.db.ports == db.ports
    decreases |items|
  {
    if |items| > 0 {
      var init := items[..|items| - 1];
      ImportedShape(db, init, parses, now);
      var before := Imported(db, init, parses, now);
      var b := Imported(db, items, parses, now);
      assert b.results[..|b.results| - 1] == before.results;
      assert b.db.devices[..|before.db.devices|] == before.db.devices;
    }
  }

  lemma {:induction false} ImportedLength(db: Db, items: seq<BulkDeviceData>, parses: string -> bool, now: Time)
    ensures |Imported(db, items, parses, now).results| == |items|
    decreases |items|
  {
    if |items| > 0 {
      ImportedLength(db, items[..|items| - 1], parses, now);
    }
  }

  /** An address that is stored stays stored through the rest of a batch. */
  lemma {:induction false} ImportedKeepsAddresses(db: Db, items: seq<BulkDeviceData>, parses: string -> bool, now: Time, ip: string)
    requires FindByIp(db.devices, ip).Some?
    ensures FindByIp(Imported(db, items, parses, now).db.devices, ip).Some?
    decreases |items|
  {
    ImportedShape(db, items, parses, now);
    var k := FindByIp(db.devices, ip).value;
    var ds := Imported(db, items, parses, now).db.devices;
    assert ds[k] == db.devices[k];
  }

  /** After an entry with a well-formed address, that address is stored. */
  lemma ImportedStoresAddress(db: Db, items: seq<BulkDeviceData>, parses: string -> bool, now: Time)
    requires |items| > 0 && parses(items[|items| - 1].ipAddress)
    ensures FindByIp(Imported(db, items, parses, now).db.devices, items[|items| - 1].ipAddress).Some?
  {
    var before := Imported(db, items[..|items| - 1], parses, now).db;
    var item := items[|items| - 1];
    if FindByIp(before.devices, item.ipAddress).None? {
      InsertKeepsValidAddress(before, OrElse(item.hostname, item.ipAddress), item.ipAddress, now);
    }
  }

  lemma InsertKeepsValidAddress(db: Db, hostname: string, ip: string, now: Time)
    requires FindByIp(db.devices, ip).None?
    ensures FindByIp(Inserted(db, hostname, ip, DeviceStatus.Unknown, Some(now), now).devices, ip).Some?
  {
    var ds := Inserted(db, hostname, ip, DeviceStatus.Unknown, Some(now), now).devices;
    FindByIpAppended(db.devices, ds[|db.devices|]);
    assert db.devices + [ds[|db.devices|]] == ds;
  }

  /** The last result of a batch is its last entry's, against the tables before it. */
  lemma ImportedLast(db: Db, items: seq<BulkDeviceData>, parses: string -> bool, now: Time)
    requires |items| > 0
    ensures |Imported(db, items, parses, now).results| == |items|
    ensures Imported(db, items, parses, now).results[|items| - 1]
         == ImportOne(Imported(db, items[..|items| - 1], parses, now).db, items[|items| - 1], parses, now).reply.value
  {
    ImportedLength(db, items[..|items| - 1], parses, now);
  }

  /** A well-formed address repeated later in the same batch is refused as a duplicate. */
  lemma RepeatedAddressRejected(db: Db, items: seq<BulkDeviceData>, parses: string -> bool, now: Time, j: nat, k: nat)
    requires j < k < |items| && items[j].ipAddress == items[k].ipAddress && parses(items[k].ipAddress)
    ensures |Imported(db, items, parses, now).results| == |items|
    ensures Imported(db, items, parses, now).results[k] == BulkImportResult(items[k].ipAddress, false, 0, Some(AlreadyExistsError))
  {
    var upToK := items[..k + 1];
    RepeatedLastRejected(db, upToK, parses, now, j);
    ImportedPrefix(db, items, parses, now, k + 1);
  }

  /** The last item of a batch is refused when an earlier item had its address. */
  lemma RepeatedLastRejected(db: Db, items: seq<BulkDeviceData>, parses: string -> bool, now: Time, j: nat)
    requires j < |items| - 1 && items[j].ipAddress == items[|items| - 1].ipAddress && parses(items[|items| - 1].ipAddress)
    ensures |Imported(db, items, parses, now).results| == |items|
    ensures Imported(db, items, parses, now).results[|items| - 1]
         == BulkImportResult(items[|items| - 1].ipAddress, false, 0, Some(AlreadyExistsError))
  {
    var k := |items| - 1;
    var pre := items[..j + 1];
    var mid := items[j + 1..k];
    assert pre[|pre| - 1] == items[j];
    StoredAfterPrefix(db, pre, mid, parses, now);
    assert pre + mid == items[..k];
    StoredLastRejected(db, items, parses, now);
  }

  /** An address stored by the last entry of `pre` is still stored after `mid`. */
  lemma StoredAfterPrefix(db: Db, pre: seq<BulkDeviceData>, mid: seq<BulkDeviceData>, parses: string -> bool, now: Time)
    requires |pre| > 0 && parses(pre[|pre| - 1].ipAddress)
    ensures FindByIp(Imported(db, pre + mid, parses, now).db.devices, pre[|pre| - 1].ipAddress).Some?
  {
    ImportedStoresAddress(db, pre, parses, now);
    ImportedKeepsAddresses(Imported(db, pre, parses, now).db, mid, parses, now, pre[|pre| - 1].ipAddress);
    ImportedSplit(db, pre, mid, parses, now);
  }

  lemma StoredLastRejected(db: Db, items: seq<BulkDeviceData>, parses: string -> bool, now: Time)
    requires |items| > 0 && parses(items[|items| - 1].ipAddress)
    requires FindByIp(Imported(db, items[..|items| - 1], parses, now).db.devices, items[|items| - 1].ipAddress).Some?
    ensures |Imported(db, items, parses, now).results| == |items|
    ensures Imported(db, items, parses, now).results[|items| - 1]
         == BulkImportResult(items[|items| - 1].ipAddress, false, 0, Some(AlreadyExistsError))
  {
    ImportedLast(db, items, parses, now);
  }


  /** Importing a batch in two parts is importing it at once. */
  lemma {:induction false} ImportedSplit(db: Db, a: seq<BulkDeviceData>, b: seq<BulkDeviceData>, parses: string -> bool, now: Time)
    ensures Imported(db, a + b, parses, now).db == Imported(Imported(db, a, parses, now).db, b, parses, now).db
    decreases |b|
  {
    if |b| > 0 {
      assert (a + b)[..|a + b| - 1] == a + b[..|b| - 1];
      ImportedSplit(db, a, b[..|b| - 1], parses, now);
    } else {
      assert a + b == a;
    }
  }

  /** The results for a prefix of a batch are a prefix of the batch's results. */
  lemma {:induction false} ImportedPrefix(db: Db, items: seq<BulkDeviceData>, parses: string -> bool, now: Time, n: nat)
    requires n <= |items|
    ensures |Imported(db, items[..n], parses, now).results| == n
    ensures |Imported(db, items, parses, now).results| == |items|
    ensures Imported(db, items[..n], parses, now).results == Imported(db, items, parses, now).results[..n]
    decreases |items|
  {
    ImportedLength(db, items[..n], parses, now);
    ImportedLength(db, items, parses, now);
    if n < |items| {
      assert items[..n] == items[..|items| - 1][..n];
      ImportedPrefix(db, items[..|items| - 1], parses, now, n);
    } else {
      assert items[..n] == items;
    }
  }

  /** Bulk import keeps the schema's constraints. */
  lemma {:induction false} ImportedKeepsValid(db: Db, items: seq<BulkDeviceData>, parses: string -> bool, now: Time)
    requires Valid(db)
    ensures Valid(Imported(db, items, parses, now).db)
    decreases |items|
  {
    if |items| > 0 {
      var init := items[..|items| - 1];
      ImportedKeepsValid(db, init, parses, now);
      var before := Imported(db, init, parses, now).db;
      var item := items[|items| - 1];
      if parses(item.ipAddress) && FindByIp(before.devices, item.ipAddress).None? {
        InsertKeepsValid(before, OrElse(item.hostname, item.ipAddress), item.ipAddress, DeviceStatus.Unknown, Some(now), now);
      }
    }
  }

  /** BulkImportDevices on the context: one entry after the other, counting successes. */
  method BulkImportDevices(ctx: DeviceContext, items: seq<BulkDeviceData>, parses: string -> bool, now: Time)
    returns (response: BulkImportResponse)
    modifies ctx
    ensures ctx.Snapshot() == Imported(old(ctx.Snapshot()), items, parses, now).db
    ensures response.results == Imported(old(ctx.Snapshot()), items, parses, now).results
    ensures response.totalRequested == |items|
    ensures response.successfullyAdded == Count(response.results, Succeeded)
  {
    ghost var db0 := ctx.Snapshot();
    var results: seq<BulkImportResult> := [];
    var successCount := 0;
    var i := 0;
    while i < |items|
      invariant 0 <= i <= |items|
      invariant Batch(ctx.Snapshot(), results) == Imported(db0, items[..i], parses, now)
      invariant successCount == Count(results, Succeeded)
    {
      assert items[..i + 1][..i] == items[..i];
      var item := items[i];
      ghost var prev := results;
      if !parses(item.ipAddress) {
        results := results + [BulkImportResult(item.ipAddress, false, 0, Some(InvalidIpError))];
      } else if FindByIp(ctx.devices, item.ipAddress).Some? {
        results := results + [BulkImportResult(item.ipAddress, false, 0, Some(AlreadyExistsError))];
      } else {
        var id := ctx.Insert(OrElse(item.hostname, item.ipAddress), item.ipAddress, DeviceStatus.Unknown, Some(now), now);
        results := results + [BulkImportResult(item.ipAddress, true, id, None)];
        successCount := successCount + 1;
      }
      assert results[..|results| - 1] == prev;
      i := i + 1;
    }
    assert items[..i] == items;
    response := BulkImportResponse(|items|, successCount, results);
  }

  // ---------------------------------------------------------------------------
  // Pinging and updating a stored device

  /** PingDeviceById: NotFound for an unknown identity; otherwise Online exactly when
      reachable, stamped, and LastSeen moves only when reachable. */
  function PingByIdEffect(db: Db, id: int, reply: PingReply, now: Time): Outcome<PingResult>
  {
    match FindById(db.devices, id)
    case None => Outcome(db, NotFound)
    case Some(k) =>
      var ping := PingDevice(reply);
      var d := db.devices[k];
      var d' := d.(status := if ping.isReachable then Online else Offline, updatedAt := now,
                   lastSeen := if ping.isReachable then Some(now) else d.lastSeen);
      Outcome(db.(devices := db.devices[k := d']), Ok(ping))
  }

  /** The manual status update: the given status, stamped, and LastSeen moves only when
      the new status is Online. */
  function SetStatusEffect(db: Db, id: int, status: DeviceStatus, now: Time): Outcome<string>
  {
    match FindById(db.devices, id)
    case None => Outcome(db, NotFound)
    case Some(k) =>
      var d := db.devices[k];
      var d' := d.(status := status, updatedAt := now, lastSeen := if status == Online then Some(now) else d.lastSeen);
      Outcome(db.(devices := db.devices[k := d']), Ok(StatusUpdatedMessage))
  }

  /** The background refresh after a bulk import (the private UpdateDeviceStatus):
      nothing for an unknown identity, else the status the ping gives, and LastSeen
      always moves. */
  function RefreshEffect(db: Db, id: int, reply: PingReply, now: Time): Db
  {
    match FindById(db.devices, id)
    case None => db
    case Some(k) =>
      var d := db.devices[k];
      var reachable := PingDevice(reply).isReachable;
      db.(devices := db.devices[k := d.(status := if reachable then Online else Offline, lastSeen := Some(now), updatedAt := now)])
  }

  /** PingDeviceById changes only the device with the identity (nothing for an unknown
      one): Online exactly when reachable, and LastSeen moves only then. */
  lemma PingByIdRules(db: Db, id: int, reply: PingReply, now: Time)
    requires Valid(db)
    ensures var o := PingByIdEffect(db, id, reply, now);
      var reachable := PingDevice(reply).isReachable;
      (o.reply.NotFound? <==> FindById(db.devices, id).None?)
      && (o.reply.NotFound? ==> o.db == db)
      && (o.reply.Ok? ==> o.reply.value == PingDevice(reply))
      && |o.db.devices| == |db.devices| && o.db.ports == db.ports
      && (forall i :: 0 <= i < |db.devices| && db.devices[i].id != id ==> o.db.devices[i] == db.devices[i])
      && (forall i :: 0 <= i < |db.devices| && db.devices[i].id == id ==>
            ((o.db.devices[i].status == Online <==> reachable)
             && o.db.devices[i].lastSeen == (if reachable then Some(now) else db.devices[i].lastSeen)))
  {
  }

  /** The manual status update changes only the device with the identity (nothing for
      an unknown one): the given status, and LastSeen moves only for Online. */
  lemma SetStatusRules(db: Db, id: int, status: DeviceStatus, now: Time)
    requires Valid(db)
    ensures var o := SetStatusEffect(db, id, status, now);
      (o.reply.NotFound? <==> FindById(db.devices, id).None?)
      && (o.reply.NotFound? ==> o.db == db)
      && |o.db.devices| == |db.devices| && o.db.ports == db.ports
      && (forall i :: 0 <= i < |db.devices| && db.devices[i].id != id ==> o.db.devices[i] == db.devices[i])
      && (forall i :: 0 <= i < |db.devices| && db.devices[i].id == id ==>
            (o.db.devices[i].status == status
             && o.db.devices[i].lastSeen == (if status == Online then Some(now) else db.devices[i].lastSeen)))
  {
  }

  /** The background refresh moves LastSeen of the device whatever the ping says. */
  lemma RefreshRules(db: Db, id: int, reply: PingReply, now: Time)
    requires Valid(db)
    ensures var db' := RefreshEffect(db, id, reply, now);
      |db'.devices| == |db.devices| && db'.ports == db.ports
      && (forall i :: 0 <= i < |db.devices| && db.devices[i].id != id ==> db'.devices[i] == db.devices[i])
      && (forall i :: 0 <= i < |db.devices| && db.devices[i].id == id ==>
            ((db'.devices[i].status == Online <==> PingDevice(reply).isReachable) && db'.devices[i].lastSeen == Some(now)))
  {
  }

  /** The updates keep the schema's constraints. */
  lemma StatusUpdatesKeepValid(db: Db, id: int, reply: PingReply, status: DeviceStatus, now: Time)
    requires Valid(db)
    ensures Valid(PingByIdEffect(db, id, reply, now).db)
    ensures Valid(SetStatusEffect(db, id, status, now).db)
    ensures Valid(RefreshEffect(db, id, reply, now))
  {
    if FindById(db.devices, id).Some? {
      var k := FindById(db.devices, id).value;
      var d := db.devices[k];
      var reachable := PingDevice(reply).isReachable;
      ReplaceKeepsValid(db, k, d.(status := if reachable then Online else Offline, updatedAt := now,
                                  lastSeen := if reachable then Some(now) else d.lastSeen));
      ReplaceKeepsValid(db, k, d.(status := status, updatedAt := now, lastSeen := if status == Online then Some(now) else d.lastSeen));
      ReplaceKeepsValid(db, k, d.(status := if reachable then Online else Offline, lastSeen := Some(now), updatedAt := now));
    }
  }

  /** PingDeviceById on the context. */
  method PingDeviceById(ctx: DeviceContext, id: int, reply: PingReply, now: Time) returns (r: Reply<PingResult>)
    modifies ctx
    ensures ctx.Snapshot() == PingByIdEffect(old(ctx.Snapshot()), id, reply, now).db
    ensures r == PingByIdEffect(old(ctx.Snapshot()), id, reply, now).reply
  {
    var found := FindById(ctx.devices, id);
    if found.None? {
      return NotFound;
    }
    var k := found.value;
    var ping := PingDevice(reply);
    var d := ctx.devices[k];
    ctx.Replace(k, d.(status := if ping.isReachable then Online else Offline, updatedAt := now,
                      lastSeen := if ping.isReachable then Some(now) else d.lastSeen));
    r := Ok(ping);
  }

  /** The manual UpdateDeviceStatus on the context. */
  method UpdateDeviceStatus(ctx: DeviceContext, id: int, status: DeviceStatus, now: Time) returns (r: Reply<string>)
    modifies ctx
    ensures ctx.Snapshot() == SetStatusEffect(old(ctx.Snapshot()), id, status, now).db
    ensures r == SetStatusEffect(old(ctx.Snapshot()), id, status, now).reply
  {
    var found := FindById(ctx.devices, id);
    if found.None? {
      return NotFound;
    }
    var k := found.value;
    var d := ctx.devices[k];
    ctx.Replace(k, d.(status := status, updatedAt := now, lastSeen := if status == Online then Some(now) else d.lastSeen));
    r := Ok(StatusUpdatedMessage);
  }

  // ---------------------------------------------------------------------------
  // ScanDevicePorts

  /** Whether the stored ports already hold this port number for the device, whatever
      its protocol. */
  predicate Monitored(ps: seq<MonitoredPort>, deviceId: int, port: int)
  {
    exists k :: 0 <= k < |ps| && ps[k].deviceId == deviceId && ps[k].port == port
  }

  /** The ports the scan adds: open, and not monitored on the device in the stored table. */
  function Wanted(stored: seq<MonitoredPort>, deviceId: int, open: int -> bool): int -> bool
  {
    p => open(p) && !Monitored(stored, deviceId, p)
  }

  /** ScanDevicePorts: nothing for an unknown identity; otherwise one Open TCP port per
      open common port not yet monitored on the device. The existence query reads the
      stored table, so ports added during the scan are not consulted. */
  function ScanEffect(db: Db, deviceId: int, open: int -> bool, now: Time): Db
  {
    if FindById(db.devices, deviceId).None? then db
    else db.(ports := db.ports + ScannedPorts(deviceId, Filter(CommonPorts, Wanted(db.ports, deviceId, open)), now))
  }

  /** The scan never adds a second port for a (device, port) pair already monitored:
      it adds only open common ports not yet monitored, each Open over TCP, and
      changes nothing else. */
  lemma ScanNeverDuplicates(db: Db, deviceId: int, open: int -> bool, now: Time)
    ensures var db' := ScanEffect(db, deviceId, open, now);
      db'.devices == db.devices && |db'.ports| >= |db.ports| && db'.ports[..|db.ports|] == db.ports
      && (forall q :: q in db'.ports[|db.ports|..] ==>
            (!Monitored(db.ports, q.deviceId, q.port) && q.deviceId == deviceId && q.port in CommonPorts
             && open(q.port) && q.status == PortStatus.Open && q.protocol == "TCP"))
  {
    if FindById(db.devices, deviceId).Some? {
      var want := Wanted(db.ports, deviceId, open);
      var found := Filter(CommonPorts, want);
      var added := ScannedPorts(deviceId, found, now);
      assert ScanEffect(db, deviceId, open, now).ports[|db.ports|..] == added;
      forall q | q in added
        ensures !Monitored(db.ports, q.deviceId, q.port) && q.port in CommonPorts && open(q.port)
      {
        var k :| 0 <= k < |added| && added[k] == q;
        assert found[k] in found;
        assert want(found[k]);
      }
    }
  }

  /** The scan keeps the schema's constraints. */
  lemma ScanKeepsValid(db: Db, deviceId: int, open: int -> bool, now: Time)
    requires Valid(db)
    ensures Valid(ScanEffect(db, deviceId, open, now))
  {
    if FindById(db.devices, deviceId).Some? {
      var want := Wanted(db.ports, deviceId, open);
      var found := Filter(CommonPorts, want);
      var added := ScannedPorts(deviceId, found, now);
      FilterIncreasing(CommonPorts, want);
      ScannedPortsDistinct(deviceId, found, now);
      forall i, j | 0 <= i < |db.ports| && 0 <= j < |added|
        ensures Key(db.ports[i]) != Key(added[j])
      {
        assert found[j] in found;
        assert want(found[j]);
      }
      var k := FindById(db.devices, deviceId).value;
      assert db.devices[k] in db.devices;
      AddPortsKeepsValid(db, added);
    }
  }

  /** ScanDevicePorts on the context. */
  method ScanDevicePorts(ctx: DeviceContext, deviceId: int, open: int -> bool, now: Time)
    modifies ctx
    ensures ctx.Snapshot() == ScanEffect(old(ctx.Snapshot()), deviceId, open, now)
  {
    if FindById(ctx.devices, deviceId).None? {
      return;
    }
    AddWanted(ctx, deviceId, CommonPorts, Wanted(ctx.ports, deviceId, open), now);
  }

  /** The scan loop: each candidate port the scan wants is added, in list order. */
  method AddWanted(ctx: DeviceContext, deviceId: int, candidates: seq<int>, want: int -> bool, now: Time)
    modifies ctx
    ensures ctx.Snapshot() == old(ctx.Snapshot()).(ports := old(ctx.ports) + ScannedPorts(deviceId, Filter(candidates, want), now))
  {
    var i := 0;
    while i < |candidates|
      invariant 0 <= i <= |candidates|
      invariant ctx.devices == old(ctx.devices) && ctx.nextDeviceId == old(ctx.nextDeviceId)
      invariant ctx.ports == old(ctx.ports) + ScannedPorts(deviceId, Filter(candidates[..i], want), now)
    {
      var port := candidates[i];
      ghost var done := Filter(candidates[..i], want);
      assert candidates[..i + 1][..i] == candidates[..i];
      assert Filter(candidates[..i + 1], want) == done + (if want(port) then [port] else []);
      if want(port) {
        ctx.AddPort(ScannedPort(deviceId, port, now));
        ScannedPortsAppend(deviceId, done, port, now);
      } else {
        assert done + [] == done;
      }
      i := i + 1;
    }
    assert candidates[..i] == candidates;
  }
}
