/** The device page script (wwwroot/js/devices.js): the status-code labels, the device
    type icons, and the conversion of the server's device list into the page's list. */
module ClientDevices {
  import opened Common
  import opened DeviceStore
  import Discovery
  import opened ClientDashboard
  import DevicesApi

  /** mapDeviceStatus: the label of a numeric device status. */
  function MapDeviceStatus(status: int): string
  {
    if status == 1 then "online"
    else if status == 2 then "offline"
    else if status == 3 then "warning"
    else if status == 4 then "error"
    else "unknown"
  }

  /** The labels follow the server's numbering: each state's code maps to its own name
      in lower case. */
  lemma MapDeviceStatusAgrees(s: DeviceStatus)
    ensures MapDeviceStatus(StatusCode(s)) == ToLowerAscii(StatusName(s))
  {
    var name := StatusName(s);
    var lower := ToLowerAscii(name);
    assert |lower| == |name|;
    match s
    case Unknown => assert lower == "unknown" by { assert forall i :: 0 <= i < |lower| ==> lower[i] == "unknown"[i]; }
    case Online => assert lower == "online" by { assert forall i :: 0 <= i < |lower| ==> lower[i] == "online"[i]; }
    case Offline => assert lower == "offline" by { assert forall i :: 0 <= i < |lower| ==> lower[i] == "offline"[i]; }
    case Warning => assert lower == "warning" by { assert forall i :: 0 <= i < |lower| ==> lower[i] == "warning"[i]; }
    case Error => assert lower == "error" by { assert forall i :: 0 <= i < |lower| ==> lower[i] == "error"[i]; }
  }

  /** Codes 1 to 4 get four distinct labels; every other number is "unknown". */
  lemma MapDeviceStatusDistinct(a: int, b: int)
    ensures MapDeviceStatus(a) == "unknown" <==> !(1 <= a <= 4)
    ensures 1 <= a <= 4 && 1 <= b <= 4 ==> (MapDeviceStatus(a) == MapDeviceStatus(b) <==> a == b)
  {
  }

  // ---------------------------------------------------------------------------
  // getDeviceTypeIcon

  const Globe: string := "\U{1F310}"
  const FallbackIcon: string := "\U{1F4F1}"

  /** The icon table, keyed by device type. */
  const Icons: map<string, string> := map[
    "Router/Gateway" := Globe,
    "Network Switch" := "\U{1F504}",
    "Server" := "\U{1F5A5}\U{FE0F}",
    "Web Server" := "\U{1F30D}",
    "Database Server" := "\U{1F5C4}\U{FE0F}",
    "Mail Server" := "\U{1F4E7}",
    "Printer" := "\U{1F5A8}\U{FE0F}",
    "Windows Computer" := "\U{1F4BB}",
    "Network Device" := "\U{1F4E1}",
    "Web Service" := Globe,
    "Unknown Device" := "\U{2753}"]

  /** getDeviceTypeIcon: the table's icon, or the phone icon when the type is missing
      (`||` also skips an empty icon, which the table does not have). */
  function DeviceTypeIcon(deviceType: string): string
  {
    if deviceType in Icons && Icons[deviceType] != "" then Icons[deviceType] else FallbackIcon
  }

  /** Every label the discovery classifier can produce has its own table entry, none
      of them the fallback; routers and web services share the globe. */
  lemma EveryDeviceTypeHasIcon()
    ensures forall t :: t in Discovery.DeviceTypeLabels ==> t in Icons && DeviceTypeIcon(t) == Icons[t] != FallbackIcon
    ensures DeviceTypeIcon("Router/Gateway") == DeviceTypeIcon("Web Service") == Globe
  {
  }

  /** A type outside the table gets the fallback icon. */
  lemma UnknownTypeIcon(deviceType: string)
    ensures DeviceTypeIcon(deviceType) == FallbackIcon <==> deviceType !in Icons
  {
  }

  // ---------------------------------------------------------------------------
  // loadDevicesFromAPI

  /** A device as the server's JSON carries it; a missing or null field is None. */
  datatype ApiDevice = ApiDevice(
    id: int,
    ipAddress: string,
    hostname: string,
    deviceType: Option<string>,
    description: Option<string>,
    status: int,
    lastSeen: Option<Time>)

  /** `x || ''` on a field that may be missing. */
  function OrEmpty(s: Option<string>): string
  {
    if s.Some? then s.value else ""
  }

  /** The mapping inside loadDevicesFromAPI. */
  function ToClientDevice(d: ApiDevice): ClientDevice
  {
    ClientDevice(d.id, d.ipAddress, d.hostname, OrEmpty(d.deviceType), OrEmpty(d.description), None,
                 MapDeviceStatus(d.status), d.lastSeen, None)
  }

  function LoadedDevices(data: seq<ApiDevice>): seq<ClientDevice>
  {
    MapSeq(data, ToClientDevice)
  }

  /** The page's list has one entry per server device, in the server's order, with the
      same id, address, name and last-seen time, the status label of its code, empty
      type and description as the server sent them (empty where it sent none), and no
      response time. */
  lemma LoadedDevicesShape(data: seq<ApiDevice>)
    ensures var ds := LoadedDevices(data);
      |ds| == |data|
      && forall i :: 0 <= i < |data| ==>
           ds[i].id == data[i].id && ds[i].ipAddress == data[i].ipAddress && ds[i].hostname == data[i].hostname
           && ds[i].lastSeen == data[i].lastSeen && ds[i].responseTime.None?
           && ds[i].status == MapDeviceStatus(data[i].status)
           && ds[i].deviceType == (if data[i].deviceType.Some? then data[i].deviceType.value else "")
           && ds[i].description == (if data[i].description.Some? then data[i].description.value else "")
  {
  }

  /** The page's device list after loadDevicesFromAPI: the mapped list when the request
      succeeds; on an error status or a failed request the catch leaves it as it was. */
  function Reloaded(before: seq<ClientDevice>, reply: Option<seq<ApiDevice>>): (ds: seq<ClientDevice>)
  {
    if reply.Some? then LoadedDevices(reply.value) else before
  }

  /** loadDevicesFromAPI: replace the page's device list, or keep it when the request fails. */
  method LoadDevicesFromApi(page: Dashboard, reply: Option<seq<ApiDevice>>)
    modifies page
    ensures page.devices == Reloaded(old(page.devices), reply)
    ensures page.urlMonitors == old(page.urlMonitors)
  {
    match reply {
      case Some(data) => page.devices := LoadedDevices(data);
      case None =>
    }
  }

  /** The fields of a stored device that the page reads from the server's JSON: the
      status as its number, and no type or description, which the device record does
      not have. The ports and certificates the server includes are not read. */
  function Serialised(d: Device): ApiDevice
  {
    ApiDevice(d.id, d.ipAddress, d.hostname, None, None, StatusCode(d.status), d.lastSeen)
  }

  /** The JSON of a device list reply; None stands for the 500. */
  function Served(reply: Option<seq<Device>>): Option<seq<ApiDevice>>
  {
    if reply.Some? then Some(MapSeq(reply.value, Serialised)) else None
  }

  function Shown(d: Device): ClientDevice
  {
    ToClientDevice(Serialised(d))
  }

  predicate StoredOnline(d: Device) { d.status == Online }
  predicate StoredOffline(d: Device) { d.status == Offline }

  /** A stored device is shown online or offline exactly when it is stored so. */
  lemma ShownStatus(d: Device)
    ensures StoredOnline(d) == IsOnlineDevice(Shown(d))
    ensures StoredOffline(d) == IsOfflineDevice(Shown(d))
  {
    MapDeviceStatusAgrees(d.status);
  }

  /** The cards over a loaded list count the listed devices by their stored state. */
  lemma CardsCountListed(listed: seq<Device>, monitors: seq<ClientMonitor>, now: Time)
    ensures var m := LoadMetrics(LoadedDevices(MapSeq(listed, Serialised)), monitors, now);
      m.onlineDevices == Count(listed, StoredOnline) && m.offlineDevices == Count(listed, StoredOffline)
  {
    assert LoadedDevices(MapSeq(listed, Serialised)) == MapSeq(listed, Shown);
    forall d: Device
      ensures StoredOnline(d) == IsOnlineDevice(Shown(d)) && StoredOffline(d) == IsOfflineDevice(Shown(d))
    {
      ShownStatus(d);
    }
    CountMapped(listed, Shown, IsOnlineDevice, StoredOnline);
    CountMapped(listed, Shown, IsOfflineDevice, StoredOffline);
  }

  /** With the device list as evidently intended, the dashboard's online and offline
      cards count exactly the stored devices in those states, whatever the page showed
      before. */
  lemma CardsMatchStore(db: Db, before: seq<ClientDevice>, monitors: seq<ClientMonitor>, now: Time)
    ensures var m := LoadMetrics(Reloaded(before, Some(MapSeq(DevicesApi.ListedDevices(db), Serialised))), monitors, now);
      m.onlineDevices == Count(db.devices, StoredOnline) && m.offlineDevices == Count(db.devices, StoredOffline)
  {
    var listed := DevicesApi.ListedDevices(db);
    CardsCountListed(listed, monitors, now);
    CountPermutation(listed, db.devices, StoredOnline);
    CountPermutation(listed, db.devices, StoredOffline);
  }

  /** As written, the cards match the store only while no port is stored; once one is,
      the list request fails and the page keeps the devices it showed before. */
  lemma CardsAsWritten(db: Db, before: seq<ClientDevice>, monitors: seq<ClientMonitor>, now: Time)
    requires Valid(db)
    ensures var shown := Reloaded(before, Served(DevicesApi.GetAllDevices(db)));
      var m := LoadMetrics(shown, monitors, now);
      (|db.ports| == 0 ==> m.onlineDevices == Count(db.devices, StoredOnline)
                           && m.offlineDevices == Count(db.devices, StoredOffline))
      && (|db.ports| > 0 ==> shown == before)
  {
    DevicesApi.DeviceListFailure(db);
    if |db.ports| == 0 {
      CardsMatchStore(db, before, monitors, now);
    }
  }

  /** One Online device with one monitored port: the list request fails, so a page that
      showed no devices still shows an online count of 0 against 1 stored. */
  lemma StaleCards()
    ensures var db := Db([Device(1, "nas", "10.0.0.2", Online, Some(0), 0, 0)],
                         [MonitoredPort(1, 22, "TCP", "SSH", true, PortStatus.Open, 0, 0, 0)], 2);
      Valid(db)
      && LoadMetrics(Reloaded([], Served(DevicesApi.GetAllDevices(db))), [], 0).onlineDevices == 0
      && Count(db.devices, StoredOnline) == 1
  {
    var db := Db([Device(1, "nas", "10.0.0.2", Online, Some(0), 0, 0)],
                 [MonitoredPort(1, 22, "TCP", "SSH", true, PortStatus.Open, 0, 0, 0)], 2);
    assert DistinctKeys(db.ports);
    assert DeviceIds(db.devices) == {1};
    DevicesApi.DeviceListFailure(db);
    CardsAsWritten(db, [], [], 0);
    CountZero([], IsOnlineDevice);
    assert db.devices[..0] == [];
  }
}
