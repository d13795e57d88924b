/** The discovery API controller (Controllers/API/NetworkDiscoveryAPIController.cs): scans
    tag each discovered device as new or already stored and split the list accordingly,
    a single probe reports whether the device is stored, and "add devices" probes and
    upserts each requested address and tallies the outcomes. */
module DiscoveryApi {
  import opened Common
  import opened DeviceStore
  import DevicesApi
  import opened Discovery

  /** The HTTP outcomes of the controller's actions. */
  datatype ApiResult<T> = Ok(value: T) | BadRequest(error: string) | NotFound(error: string) | ServerError(error: string)

  const RangeRequiredError: string := "Network range is required"
  const IpRequiredError: string := "IP address is required"
  const DevicesRequiredError: string := "At least one device IP address is required"
  const DiscoveryFailedError: string := "Network discovery failed"
  const NotRespondingError: string := "Device is not responding"
  const AddFailedError: string := "Failed to add device to database"

  // ---------------------------------------------------------------------------
  // Tagging and partition

  /** The stored addresses (the projection the scans read). */
  function StoredIps(db: Db): (ips: seq<string>)
    ensures |ips| == |db.devices|
    ensures forall i :: 0 <= i < |db.devices| ==> ips[i] == db.devices[i].ipAddress
  {
    seq(|db.devices|, i requires 0 <= i < |db.devices| => db.devices[i].ipAddress)
  }

  /** The discovered list with each device's AlreadyExists flag set. */
  function Tagged(found: seq<DiscoveredDevice>, storedIps: seq<string>): (tagged: seq<DiscoveredDevice>)
    ensures |tagged| == |found|
  {
    seq(|found|, i requires 0 <= i < |found| => found[i].(alreadyExists := found[i].ipAddress in storedIps))
  }

  /** The `foreach` that sets AlreadyExists on every discovered device. */
  method TagExisting(found: seq<DiscoveredDevice>, storedIps: seq<string>) returns (tagged: seq<DiscoveredDevice>)
    ensures tagged == Tagged(found, storedIps)
  {
    tagged := found;
    var i := 0;
    while i < |tagged|
      invariant 0 <= i <= |tagged| && |tagged| == |found|
      invariant forall k :: 0 <= k < i ==> tagged[k] == found[k].(alreadyExists := found[k].ipAddress in storedIps)
      invariant forall k :: i <= k < |tagged| ==> tagged[k] == found[k]
    {
      tagged := tagged[i := tagged[i].(alreadyExists := tagged[i].ipAddress in storedIps)];
      i := i + 1;
    }
  }

  /** Tagging changes nothing but the flag, which holds exactly for stored addresses. */
  lemma TaggingRule(found: seq<DiscoveredDevice>, db: Db)
    ensures forall i :: 0 <= i < |found| ==>
              Tagged(found, StoredIps(db))[i].(alreadyExists := found[i].alreadyExists) == found[i]
              && (Tagged(found, StoredIps(db))[i].alreadyExists <==> FindByIp(db.devices, found[i].ipAddress).Some?)
  {
    forall i | 0 <= i < |found|
      ensures Tagged(found, StoredIps(db))[i].alreadyExists <==> FindByIp(db.devices, found[i].ipAddress).Some?
    {
      var ip := found[i].ipAddress;
      if ip in StoredIps(db) {
        var k :| 0 <= k < |db.devices| && StoredIps(db)[k] == ip;
      }
    }
  }

  predicate IsNew(d: DiscoveredDevice) { !d.alreadyExists }
  predicate IsExisting(d: DiscoveredDevice) { d.alreadyExists }

  /** The response of a scan. */
  datatype DiscoveryResult = DiscoveryResult(
    totalDevicesFound: int,
    newDevices: seq<DiscoveredDevice>,
    existingDevices: seq<DiscoveredDevice>,
    scanCompletedAt: Time,
    networkRange: Option<string>)

  function Summary(tagged: seq<DiscoveredDevice>, now: Time, range: Option<string>): DiscoveryResult
  {
    DiscoveryResult(|tagged|, Filter(tagged, IsNew), Filter(tagged, IsExisting), now, range)
  }

  /** The new and existing lists split the tagged list: every device lands in exactly one
      of them, by its flag, and their sizes add up to the total. */
  lemma SummaryPartitions(tagged: seq<DiscoveredDevice>, now: Time, range: Option<string>)
    ensures var r := Summary(tagged, now, range);
      |r.newDevices| + |r.existingDevices| == r.totalDevicesFound
      && (forall d :: d in r.newDevices <==> d in tagged && !d.alreadyExists)
      && (forall d :: d in r.existingDevices <==> d in tagged && d.alreadyExists)
  {
    CountComplement(tagged, IsExisting, IsNew);
    FilterExactly(tagged, IsNew);
    FilterExactly(tagged, IsExisting);
  }

  // ---------------------------------------------------------------------------
  // Scans

  /** ScanLocalNetwork: the local discovery, tagged against the stored devices; a failing
      discovery is a server error. */
  function ScanLocal(db: Db, localIp: Option<Octets>, network: string -> HostAnswers,
                     parseAddress: string -> Option<Octets>, now: Time): ApiResult<DiscoveryResult>
  {
    match DiscoveredLocal(localIp, network, parseAddress, now)
    case None => ServerError(DiscoveryFailedError)
    case Some(found) => Ok(Summary(Tagged(found, StoredIps(db)), now, None))
  }

  /** ScanNetworkRange: a missing or blank range is refused before any probing; otherwise
      as the local scan, with the range echoed. */
  function ScanRange(db: Db, range: Option<string>, network: string -> HostAnswers,
                     parseAddress: string -> Option<Octets>, now: Time): ApiResult<DiscoveryResult>
  {
    if IsNullOrWhiteSpace(range) then BadRequest(RangeRequiredError)
    else
      match Discovered(range.value, network, parseAddress, now)
      case None => ServerError(DiscoveryFailedError)
      case Some(found) => Ok(Summary(Tagged(found, StoredIps(db)), now, range))
  }

  /** A scan of a non-blank range reports each responding address of the range once, as
      new exactly when no stored device has its address, and nothing outside the range;
      it fails exactly when the discovery does. */
  lemma ScanRangeRules(db: Db, range: Option<string>, network: string -> HostAnswers,
                       parseAddress: string -> Option<Octets>, now: Time)
    ensures var r := ScanRange(db, range, network, parseAddress, now);
      (r.BadRequest? <==> IsNullOrWhiteSpace(range))
      && (r.ServerError? <==> !IsNullOrWhiteSpace(range) && Discovered(range.value, network, parseAddress, now).None?)
      && (r.Ok? ==>
            KeysDistinct(r.value.newDevices + r.value.existingDevices, AddressOf)
            && forall ip :: ip in ParsedRange(range.value, parseAddress) && Probed(ip, network(ip), now).Some? ==>
                 exists d :: d in r.value.newDevices + r.value.existingDevices && d.ipAddress == ip)
      && (r.Ok? ==>
            r.value.networkRange == range
            && |r.value.newDevices| + |r.value.existingDevices| == r.value.totalDevicesFound
            && (forall d :: d in r.value.newDevices ==>
                  d.ipAddress in ParsedRange(range.value, parseAddress) && FindByIp(db.devices, d.ipAddress).None?)
            && (forall d :: d in r.value.existingDevices ==>
                  d.ipAddress in ParsedRange(range.value, parseAddress) && FindByIp(db.devices, d.ipAddress).Some?))
  {
    if !IsNullOrWhiteSpace(range) {
      var discovered := Discovered(range.value, network, parseAddress, now);
      if discovered.Some? {
        var found := discovered.value;
        var tagged := Tagged(found, StoredIps(db));
        DiscoveredInRange(range.value, network, parseAddress, now);
        TaggedAddresses(found, db, ParsedRange(range.value, parseAddress));
        SummaryPartitions(tagged, now, range);
        ReportedOnce(range.value, network, parseAddress, now, db);
      }
    }
  }

  /** The summary of a discovery lists every responding address of the range, each once. */
  lemma ReportedOnce(range: string, network: string -> HostAnswers, parseAddress: string -> Option<Octets>, now: Time, db: Db)
    requires Discovered(range, network, parseAddress, now).Some?
    ensures var r := Summary(Tagged(Discovered(range, network, parseAddress, now).value, StoredIps(db)), now, Some(range));
      KeysDistinct(r.newDevices + r.existingDevices, AddressOf)
      && forall ip :: ip in ParsedRange(range, parseAddress) && Probed(ip, network(ip), now).Some? ==>
           exists d :: d in r.newDevices + r.existingDevices && d.ipAddress == ip
  {
    var found := Discovered(range, network, parseAddress, now).value;
    DiscoveredOnce(range, network, parseAddress, now);
    ListedOnce(found, db, now, Some(range));
    forall ip | ip in ParsedRange(range, parseAddress) && Probed(ip, network(ip), now).Some?
      ensures Probed(ip, network(ip), now).value in found && Probed(ip, network(ip), now).value.ipAddress == ip
    {
      ProbeFindings(ip, network(ip), now);
    }
  }

  /** Tagging and splitting a list of distinct addresses lists each of its addresses once. */
  lemma ListedOnce(found: seq<DiscoveredDevice>, db: Db, now: Time, range: Option<string>)
    requires KeysDistinct(found, AddressOf)
    ensures var r := Summary(Tagged(found, StoredIps(db)), now, range);
      KeysDistinct(r.newDevices + r.existingDevices, AddressOf)
      && forall d :: d in found ==> exists e :: e in r.newDevices + r.existingDevices && e.ipAddress == d.ipAddress
  {
    var tagged := Tagged(found, StoredIps(db));
    var r := Summary(tagged, now, range);
    var listed := r.newDevices + r.existingDevices;
    SummaryPermutes(tagged, now, range);
    assert KeysDistinct(tagged, AddressOf) by {
      assert forall i :: 0 <= i < |tagged| ==> tagged[i].ipAddress == found[i].ipAddress;
    }
    KeysDistinctPermutation(tagged, listed, AddressOf);
    forall d | d in found
      ensures exists e :: e in listed && e.ipAddress == d.ipAddress
    {
      var i :| 0 <= i < |found| && found[i] == d;
      assert tagged[i] in multiset(listed);
    }
  }

  /** The new and existing lists together are a rearrangement of the tagged list. */
  lemma SummaryPermutes(tagged: seq<DiscoveredDevice>, now: Time, range: Option<string>)
    ensures var r := Summary(tagged, now, range);
      multiset(r.newDevices + r.existingDevices) == multiset(tagged)
  {
    var r := Summary(tagged, now, range);
    forall d ensures multiset(r.newDevices + r.existingDevices)[d] == multiset(tagged)[d] {
      FilterMultiplicity(tagged, IsNew, d);
      FilterMultiplicity(tagged, IsExisting, d);
    }
  }

  lemma DiscoveredInRange(range: string, network: string -> HostAnswers, parseAddress: string -> Option<Octets>, now: Time)
    requires Discovered(range, network, parseAddress, now).Some?
    ensures forall d :: d in Discovered(range, network, parseAddress, now).value ==> d.ipAddress in ParsedRange(range, parseAddress)
  {
    DiscoveryOutput(range, network, parseAddress, now);
  }

  /** Tagged devices keep their addresses and are flagged exactly when stored. */
  lemma TaggedAddresses(found: seq<DiscoveredDevice>, db: Db, addresses: seq<string>)
    requires forall d :: d in found ==> d.ipAddress in addresses
    ensures forall d :: d in Tagged(found, StoredIps(db)) ==>
              d.ipAddress in addresses && (d.alreadyExists <==> FindByIp(db.devices, d.ipAddress).Some?)
  {
    var tagged := Tagged(found, StoredIps(db));
    TaggingRule(found, db);
    forall d | d in tagged
      ensures d.ipAddress in addresses
      ensures d.alreadyExists <==> FindByIp(db.devices, d.ipAddress).Some?
    {
      var i :| 0 <= i < |tagged| && tagged[i] == d;
      assert found[i] in found;
    }
  }

  method ScanNetworkRange(db: Db, range: Option<string>, network: string -> HostAnswers,
                          parseAddress: string -> Option<Octets>, now: Time) returns (r: ApiResult<DiscoveryResult>)
    ensures r == ScanRange(db, range, network, parseAddress, now)
  {
    if IsNullOrWhiteSpace(range) {
      return BadRequest(RangeRequiredError);
    }
    var discovered := DiscoverDevices(range.value, network, parseAddress, now);
    if discovered.None? {
      return ServerError(DiscoveryFailedError);
    }
    var tagged := TagExisting(discovered.value, StoredIps(db));
    r := Ok(Summary(tagged, now, range));
  }

  method ScanLocalNetwork(db: Db, localIp: Option<Octets>, network: string -> HostAnswers,
                          parseAddress: string -> Option<Octets>, now: Time) returns (r: ApiResult<DiscoveryResult>)
    ensures r == ScanLocal(db, localIp, network, parseAddress, now)
  {
    var discovered := DiscoverLocalNetwork(localIp, network, parseAddress, now);
    if discovered.None? {
      return ServerError(DiscoveryFailedError);
    }
    var tagged := TagExisting(discovered.value, StoredIps(db));
    r := Ok(Summary(tagged, now, None));
  }

  // ---------------------------------------------------------------------------
  // Probe

  /** ProbeDevice: a missing or blank address is refused; a silent device is not found;
      otherwise the probe, flagged when a stored device has the address. */
  function ProbeOne(db: Db, ip: Option<string>, network: string -> HostAnswers, now: Time): ApiResult<DiscoveredDevice>
  {
    if IsNullOrWhiteSpace(ip) then BadRequest(IpRequiredError)
    else
      match Probed(ip.value, network(ip.value), now)
      case None => NotFound("Device at " + ip.value + " is not responding")
      case Some(d) => Ok(d.(alreadyExists := FindByIp(db.devices, ip.value).Some?))
  }

  /** Not found exactly when the ping does not succeed; a found device is flagged exactly
      when its address is stored. */
  lemma ProbeRules(db: Db, ip: Option<string>, network: string -> HostAnswers, now: Time)
    ensures var r := ProbeOne(db, ip, network, now);
      (r.BadRequest? <==> IsNullOrWhiteSpace(ip))
      && (r.NotFound? <==> !IsNullOrWhiteSpace(ip) && !DevicesApi.PingDevice(network(ip.value).ping).isReachable)
      && (r.Ok? ==> r.value.ipAddress == ip.value
                    && (r.value.alreadyExists <==> exists d :: d in db.devices && d.ipAddress == ip.value))
  {
    if !IsNullOrWhiteSpace(ip) && Probed(ip.value, network(ip.value), now).Some? {
      ProbeFindings(ip.value, network(ip.value), now);
      if exists d :: d in db.devices && d.ipAddress == ip.value {
        var d :| d in db.devices && d.ipAddress == ip.value;
        var k :| 0 <= k < |db.devices| && db.devices[k] == d;
      }
    }
  }

  method ProbeDevice(db: Db, ip: Option<string>, network: string -> HostAnswers, now: Time)
    returns (r: ApiResult<DiscoveredDevice>)
    ensures r == ProbeOne(db, ip, network, now)
  {
    if IsNullOrWhiteSpace(ip) {
      return BadRequest(IpRequiredError);
    }
    var device := Discovery.ProbeDevice(ip.value, network(ip.value), now);
    if device.None? {
      return NotFound("Device at " + ip.value + " is not responding");
    }
    var existing := FindByIp(db.devices, ip.value);
    r := Ok(device.value.(alreadyExists := existing.Some?));
  }

  // ---------------------------------------------------------------------------
  // Add devices

  datatype AddDeviceResult = AddDeviceResult(ipAddress: string, hostname: Option<string>, success: bool, error: Option<string>)

  datatype AddDevicesResult = AddDevicesResult(totalRequested: int, successfullyAdded: int, failed: int,
                                               results: seq<AddDeviceResult>)

  predicate Added(r: AddDeviceResult) { r.success }
  predicate NotAdded(r: AddDeviceResult) { !r.success }

  /** The store and the results after a prefix of the requested addresses. */
  datatype AddRun = AddRun(db: Db, results: seq<AddDeviceResult>)

  /** One requested address: probe it; a silent one is reported, a responding one is
      upserted (`fault` says which save, if any, fails). */
  function AddOne(db: Db, ip: string, network: string -> HostAnswers, fault: SaveFault, now: Time): AddRun
  {
    match Probed(ip, network(ip), now)
    case None => AddRun(db, [AddDeviceResult(ip, None, false, Some(NotRespondingError))])
    case Some(d) =>
      var u := UpsertEffect(db, d, fault, now);
      AddRun(u.db, [AddDeviceResult(ip, Some(d.hostname), u.added, if u.added then None else Some(AddFailedError))])
  }

  /** The requested addresses in order; `faults` gives each attempt's save fault by its
      position in the request. */
  function AddedAll(db: Db, ips: seq<string>, network: string -> HostAnswers, faults: nat -> SaveFault, now: Time): (run: AddRun)
    ensures |run.results| == |ips|
    decreases |ips|
  {
    if |ips| == 0 then AddRun(db, [])
    else
      var before := AddedAll(db, ips[..|ips| - 1], network, faults, now);
      var step := AddOne(before.db, ips[|ips| - 1], network, faults(|ips| - 1), now);
      AddRun(step.db, before.results + step.results)
  }

  /** AddDevices: a missing or empty list is refused; otherwise one result per address
      and the tallies. */
  function AddDevicesEffect(db: Db, ips: Option<seq<string>>, network: string -> HostAnswers,
                            faults: nat -> SaveFault, now: Time): (Db, ApiResult<AddDevicesResult>)
  {
    if ips.None? || |ips.value| == 0 then (db, BadRequest(DevicesRequiredError))
    else
      var run := AddedAll(db, ips.value, network, faults, now);
      (run.db, Ok(AddDevicesResult(|ips.value|, Count(run.results, Added), Count(run.results, NotAdded), run.results)))
  }

  /** What one requested address contributes. */
  predicate ReportsOn(r: AddDeviceResult, ip: string, network: string -> HostAnswers)
  {
    r.ipAddress == ip
    && (!DevicesApi.PingDevice(network(ip).ping).isReachable ==> r == AddDeviceResult(ip, None, false, Some(NotRespondingError)))
    && (r.success ==> DevicesApi.PingDevice(network(ip).ping).isReachable && r.error.None?)
  }

  /** One address yields one result about it: a silent address is reported as not
      responding, and a result succeeds only when its address answered the ping. */
  lemma AddOneReports(db: Db, ip: string, network: string -> HostAnswers, fault: SaveFault, now: Time)
    ensures var rs := AddOne(db, ip, network, fault, now).results;
      |rs| == 1 && ReportsOn(rs[0], ip, network)
  {
  }

  /** The k-th result is about the k-th address, as AddOneReports describes. */
  lemma {:induction false} AddedAllResults(db: Db, ips: seq<string>, network: string -> HostAnswers,
                                           faults: nat -> SaveFault, now: Time)
    ensures var rs := AddedAll(db, ips, network, faults, now).results;
      forall k :: 0 <= k < |ips| ==> ReportsOn(rs[k], ips[k], network)
    decreases |ips|
  {
    if |ips| > 0 {
      var init := ips[..|ips| - 1];
      AddedAllResults(db, init, network, faults, now);
      var before := AddedAll(db, init, network, faults, now);
      AddOneReports(before.db, ips[|ips| - 1], network, faults(|ips| - 1), now);
      assert forall k :: 0 <= k < |init| ==> init[k] == ips[k];
    }
  }

  /** Adding discovered devices keeps the schema's constraints. */
  lemma {:induction false} AddedAllKeepsValid(db: Db, ips: seq<string>, network: string -> HostAnswers,
                                              faults: nat -> SaveFault, now: Time)
    requires Valid(db)
    ensures Valid(AddedAll(db, ips, network, faults, now).db)
    decreases |ips|
  {
    if |ips| > 0 {
      AddedAllKeepsValid(db, ips[..|ips| - 1], network, faults, now);
      var before := AddedAll(db, ips[..|ips| - 1], network, faults, now);
      var ip := ips[|ips| - 1];
      var probe := Probed(ip, network(ip), now);
      if probe.Some? {
        UpsertKeepsValid(before.db, probe.value, faults(|ips| - 1), now);
      }
    }
  }

  /** The request is refused only when the list is missing or empty; otherwise there is
      one result per requested address and the successes and failures add up to the
      number requested. */
  lemma AddDevicesTallies(db: Db, ips: Option<seq<string>>, network: string -> HostAnswers,
                          faults: nat -> SaveFault, now: Time)
    ensures var (db', r) := AddDevicesEffect(db, ips, network, faults, now);
      (r.BadRequest? <==> ips.None? || |ips.value| == 0)
      && (r.BadRequest? ==> db' == db)
      && (r.Ok? ==>
            r.value.totalRequested == |ips.value| == |r.value.results|
            && r.value.successfullyAdded + r.value.failed == r.value.totalRequested
            && r.value.successfullyAdded == Count(r.value.results, Added))
  {
    if ips.Some? && |ips.value| > 0 {
      var run := AddedAll(db, ips.value, network, faults, now);
      CountComplement(run.results, Added, NotAdded);
    }
  }

  /** AddDevices on the context: probe and upsert each address in turn. */
  method AddDevices(ctx: DeviceContext, ips: Option<seq<string>>, network: string -> HostAnswers,
                    faults: nat -> SaveFault, now: Time) returns (r: ApiResult<AddDevicesResult>)
    modifies ctx
    ensures (ctx.Snapshot(), r) == AddDevicesEffect(old(ctx.Snapshot()), ips, network, faults, now)
  {
    if ips.None? || |ips.value| == 0 {
      return BadRequest(DevicesRequiredError);
    }
    var requested := ips.value;
    ghost var db0 := ctx.Snapshot();
    var results: seq<AddDeviceResult> := [];
    var i := 0;
    while i < |requested|
      invariant 0 <= i <= |requested|
      invariant AddRun(ctx.Snapshot(), results) == AddedAll(db0, requested[..i], network, faults, now)
    {
      assert requested[..i + 1][..i] == requested[..i];
      var result := AddRequested(ctx, requested[i], network, faults(i), now);
      results := results + [result];
      i := i + 1;
    }
    assert requested[..i] == requested;
    r := Ok(AddDevicesResult(|requested|, Count(results, Added), Count(results, NotAdded), results));
  }

  /** One iteration of AddDevices. */
  method AddRequested(ctx: DeviceContext, ip: string, network: string -> HostAnswers, fault: SaveFault, now: Time)
    returns (result: AddDeviceResult)
    modifies ctx
    ensures AddRun(ctx.Snapshot(), [result]) == AddOne(old(ctx.Snapshot()), ip, network, fault, now)
  {
    var device := Discovery.ProbeDevice(ip, network(ip), now);
    if device.None? {
      return AddDeviceResult(ip, None, false, Some(NotRespondingError));
    }
    var success := AddDiscoveredDevice(ctx, device.value, fault, now);
    result := AddDeviceResult(ip, Some(device.value.hostname), success, if success then None else Some(AddFailedError));
  }

  // ---------------------------------------------------------------------------
  // Status

  datatype DiscoveryStatus = DiscoveryStatus(totalManagedDevices: int, onlineDevices: int, offlineDevices: int,
                                             recentlyAddedDevices: int, lastDiscoveryRun: Time)

  predicate IsOnline(d: Device) { d.status == Online }
  predicate IsOffline(d: Device) { d.status == Offline }
  predicate IsOnlineOrOffline(d: Device) { d.status == Online || d.status == Offline }

  /** The devices created within the last seven days of `now`. */
  function CreatedSince(cutoff: Time): Device -> bool
  {
    (d: Device) => d.createdAt >= cutoff
  }

  const Week: int := 7 * DayMs

  /** GetDiscoveryStatus. */
  function Status(db: Db, now: Time): DiscoveryStatus
  {
    DiscoveryStatus(|db.devices|, Count(db.devices, IsOnline), Count(db.devices, IsOffline),
                    Count(db.devices, CreatedSince(now - Week)), now)
  }

  /** Online and offline devices are counted apart and together never exceed the total;
      recently added devices are a part of the total too. */
  lemma StatusBounds(db: Db, now: Time)
    ensures var s := Status(db, now);
      s.onlineDevices + s.offlineDevices <= s.totalManagedDevices
      && s.recentlyAddedDevices <= s.totalManagedDevices
      && ((forall d :: d in db.devices ==> d.createdAt < now - Week) ==> s.recentlyAddedDevices == 0)
  {
    CountDisjointUnion(db.devices, IsOnline, IsOffline, IsOnlineOrOffline);
    CountZero(db.devices, CreatedSince(now - Week));
    if forall d :: d in db.devices ==> d.createdAt < now - Week {
      forall i | 0 <= i < |db.devices|
        ensures !CreatedSince(now - Week)(db.devices[i])
      {
        assert db.devices[i] in db.devices;
      }
    }
  }
}
