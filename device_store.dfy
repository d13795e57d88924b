/** The device tables of the database context (Models/Device.cs, Models/MonitoredPort.cs,
    Data/ApplicationDbContext.cs): devices with a unique IP address, and the ports
    monitored on them, unique per (device, port, protocol). */
module DeviceStore {
  import opened Common

  /** Models/Device.cs: the numbered device states. */
  datatype DeviceStatus = Unknown | Online | Offline | Warning | Error

  /** The enum's numeric value, as the API serialises it. */
  function StatusCode(s: DeviceStatus): (code: int)
    ensures 0 <= code <= 4
    ensures code == 0 <==> s == DeviceStatus.Unknown
  {
    match s
    case Unknown => 0
    case Online => 1
    case Offline => 2
    case Warning => 3
    case Error => 4
  }

  /** The enum's ToString. */
  function StatusName(s: DeviceStatus): string
  {
    match s
    case Unknown => "Unknown"
    case Online => "Online"
    case Offline => "Offline"
    case Warning => "Warning"
    case Error => "Error"
  }

  /** Distinct states have distinct codes and distinct names. */
  lemma StatusCodesDistinct(s: DeviceStatus, t: DeviceStatus)
    ensures StatusCode(s) == StatusCode(t) <==> s == t
    ensures StatusName(s) == StatusName(t) <==> s == t
  {
  }

  /** Models/MonitoredPort.cs: the states of a monitored port. */
  datatype PortStatus = Unknown | Open | Closed | Filtered | Timeout

  datatype Device = Device(
    id: int,
    hostname: string,
    ipAddress: string,
    status: DeviceStatus,
    lastSeen: Option<Time>,
    createdAt: Time,
    updatedAt: Time)

  /** A monitored port. Its own identity column is not modelled. */
  datatype MonitoredPort = MonitoredPort(
    deviceId: int,
    port: int,
    protocol: string,
    serviceName: string,
    isEnabled: bool,
    status: PortStatus,
    lastChecked: Time,
    createdAt: Time,
    updatedAt: Time)

  /** The columns of the unique port index. */
  function Key(p: MonitoredPort): (int, int, string)
  {
    (p.deviceId, p.port, p.protocol)
  }

  /** The range declared on MonitoredPort.Port. */
  predicate PortInRange(port: int) { 1 <= port <= 65535 }

  /** The two tables and the next identity value the database hands out for a device. */
  datatype Db = Db(devices: seq<Device>, ports: seq<MonitoredPort>, nextDeviceId: int)

  function DeviceIds(ds: seq<Device>): set<int>
  {
    set d | d in ds :: d.id
  }

  predicate DistinctKeys(ps: seq<MonitoredPort>)
  {
    forall i, j :: 0 <= i < j < |ps| ==> Key(ps[i]) != Key(ps[j])
  }

  /** The schema's constraints: unique IP addresses, unique positive identities below
      the next one, unique port keys, and every port belongs to a stored device. */
  predicate Valid(db: Db)
  {
    && (forall i, j :: 0 <= i < j < |db.devices| ==> db.devices[i].ipAddress != db.devices[j].ipAddress)
    && (forall i, j :: 0 <= i < j < |db.devices| ==> db.devices[i].id != db.devices[j].id)
    && db.nextDeviceId > 0
    && (forall d :: d in db.devices ==> 0 < d.id < db.nextDeviceId)
    && DistinctKeys(db.ports)
    && (forall p :: p in db.ports ==> p.deviceId in DeviceIds(db.devices))
  }

  /** The first device with the given IP address (FirstOrDefault on IpAddress). */
  function FindByIp(ds: seq<Device>, ip: string): (r: Option<nat>)
    ensures r.None? <==> forall i :: 0 <= i < |ds| ==> ds[i].ipAddress != ip
    ensures r.Some? ==> r.value < |ds| && ds[r.value].ipAddress == ip
    ensures r.Some? ==> forall i :: 0 <= i < r.value ==> ds[i].ipAddress != ip
    decreases |ds|
  {
    if |ds| == 0 then None
    else if ds[0].ipAddress == ip then Some(0)
    else
      match FindByIp(ds[1..], ip)
      case None => None
      case Some(k) => Some(k + 1)
  }

  /** A device appended after devices with other addresses is the first with its own. */
  lemma {:induction false} FindByIpAppended(ds: seq<Device>, d: Device)
    requires FindByIp(ds, d.ipAddress).None?
    ensures FindByIp(ds + [d], d.ipAddress) == Some(|ds|)
    decreases |ds|
  {
    if |ds| > 0 {
      assert (ds + [d])[1..] == ds[1..] + [d];
      FindByIpAppended(ds[1..], d);
    }
  }

  /** The device with the given identity (FindAsync on the key). */
  function FindById(ds: seq<Device>, id: int): (r: Option<nat>)
    ensures r.None? <==> forall i :: 0 <= i < |ds| ==> ds[i].id != id
    ensures r.Some? ==> r.value < |ds| && ds[r.value].id == id
    decreases |ds|
  {
    if |ds| == 0 then None
    else if ds[0].id == id then Some(0)
    else
      match FindById(ds[1..], id)
      case None => None
      case Some(k) => Some(k + 1)
  }

  /** An empty database. */
  function EmptyDb(): (db: Db)
    ensures Valid(db) && |db.devices| == 0 && |db.ports| == 0
  {
    Db([], [], 1)
  }

  /** Adding a device and saving: it receives the next identity. */
  function Inserted(db: Db, hostname: string, ip: string, status: DeviceStatus, lastSeen: Option<Time>, now: Time): Db
  {
    db.(devices := db.devices + [Device(db.nextDeviceId, hostname, ip, status, lastSeen, now, now)],
        nextDeviceId := db.nextDeviceId + 1)
  }

  /** Inserting a device whose address is not yet stored keeps the constraints, and the
      new device is the only one with its address. */
  lemma InsertKeepsValid(db: Db, hostname: string, ip: string, status: DeviceStatus, lastSeen: Option<Time>, now: Time)
    requires Valid(db)
    requires FindByIp(db.devices, ip).None?
    ensures Valid(Inserted(db, hostname, ip, status, lastSeen, now))
    ensures FindByIp(Inserted(db, hostname, ip, status, lastSeen, now).devices, ip) == Some(|db.devices|)
    ensures db.nextDeviceId !in DeviceIds(db.devices)
  {
    var db' := Inserted(db, hostname, ip, status, lastSeen, now);
    FindByIpAppended(db.devices, db'.devices[|db.devices|]);
    assert db.devices + [db'.devices[|db.devices|]] == db'.devices;
    forall p | p in db'.ports
      ensures p.deviceId in DeviceIds(db'.devices)
    {
      var d :| d in db.devices && d.id == p.deviceId;
      assert d in db'.devices;
    }
  }

  /** Adding ports of stored devices keeps the constraints when no two of the new ports,
      and no new and old port, share a key. */
  lemma AddPortsKeepsValid(db: Db, ps: seq<MonitoredPort>)
    requires Valid(db)
    requires DistinctKeys(ps)
    requires forall i, j :: 0 <= i < |db.ports| && 0 <= j < |ps| ==> Key(db.ports[i]) != Key(ps[j])
    requires forall p :: p in ps ==> p.deviceId in DeviceIds(db.devices)
    ensures Valid(db.(ports := db.ports + ps))
  {
    var all := db.ports + ps;
    forall i, j | 0 <= i < j < |all|
      ensures Key(all[i]) != Key(all[j])
    {
      if i < |db.ports| <= j {
        assert all[i] == db.ports[i] && all[j] == ps[j - |db.ports|];
      } else if |db.ports| <= i {
        assert all[i] == ps[i - |db.ports|] && all[j] == ps[j - |db.ports|];
      }
    }
  }

  /** Ports for a freshly inserted device keep the constraints when their keys are
      distinct among themselves. */
  lemma AddPortsOfNewDeviceKeepsValid(db: Db, id: int, ps: seq<MonitoredPort>)
    requires Valid(db)
    requires id in DeviceIds(db.devices)
    requires forall p :: p in db.ports ==> p.deviceId != id
    requires forall p :: p in ps ==> p.deviceId == id
    requires DistinctKeys(ps)
    ensures Valid(db.(ports := db.ports + ps))
  {
    forall i, j | 0 <= i < |db.ports| && 0 <= j < |ps|
      ensures Key(db.ports[i]) != Key(ps[j])
    {
      assert db.ports[i] in db.ports && ps[j] in ps;
    }
    AddPortsKeepsValid(db, ps);
  }

  /** Inserting a device and then ports of it with distinct keys keeps the constraints. */
  lemma InsertWithPortsKeepsValid(db: Db, hostname: string, ip: string, status: DeviceStatus, lastSeen: Option<Time>,
                                  now: Time, ps: seq<MonitoredPort>)
    requires Valid(db)
    requires FindByIp(db.devices, ip).None?
    requires DistinctKeys(ps)
    requires forall p :: p in ps ==> p.deviceId == db.nextDeviceId
    ensures Valid(Inserted(db, hostname, ip, status, lastSeen, now).(ports := db.ports + ps))
  {
    var stored := Inserted(db, hostname, ip, status, lastSeen, now);
    InsertKeepsValid(db, hostname, ip, status, lastSeen, now);
    assert db.nextDeviceId in DeviceIds(stored.devices) by {
      assert stored.devices[|db.devices|] in stored.devices;
    }
    forall p | p in stored.ports
      ensures p.deviceId != db.nextDeviceId
    {
      var d :| d in db.devices && d.id == p.deviceId;
    }
    AddPortsOfNewDeviceKeepsValid(stored, db.nextDeviceId, ps);
  }

  /** Replacing a device by one with the same identity and address keeps the constraints. */
  lemma ReplaceKeepsValid(db: Db, k: nat, d: Device)
    requires Valid(db) && k < |db.devices|
    requires d.id == db.devices[k].id && d.ipAddress == db.devices[k].ipAddress
    ensures Valid(db.(devices := db.devices[k := d]))
  {
    var ds := db.devices[k := d];
    assert DeviceIds(ds) == DeviceIds(db.devices) by {
      forall x | x in DeviceIds(db.devices)
        ensures x in DeviceIds(ds)
      {
        var e :| e in db.devices && e.id == x;
        var i :| 0 <= i < |db.devices| && db.devices[i] == e;
        assert ds[i].id == x;
      }
    }
    forall e | e in ds
      ensures 0 < e.id < db.nextDeviceId
    {
      var i :| 0 <= i < |ds| && ds[i] == e;
      assert i != k ==> db.devices[i] in db.devices;
    }
  }

  // ---------------------------------------------------------------------------
  // The context object

  /** The database context: its two tables, which the controllers change in place. */
  class DeviceContext {
    var devices: seq<Device>
    var ports: seq<MonitoredPort>
    var nextDeviceId: int

    function Snapshot(): Db
      reads this
    {
      Db(devices, ports, nextDeviceId)
    }

    constructor ()
      ensures Snapshot() == EmptyDb()
    {
      devices, ports, nextDeviceId := [], [], 1;
    }

    /** Devices.Add followed by SaveChanges: returns the identity the device received. */
    method Insert(hostname: string, ip: string, status: DeviceStatus, lastSeen: Option<Time>, now: Time)
      returns (id: int)
      modifies this
      ensures Snapshot() == Inserted(old(Snapshot()), hostname, ip, status, lastSeen, now)
      ensures id == old(nextDeviceId)
    {
      id := nextDeviceId;
      devices := devices + [Device(id, hostname, ip, status, lastSeen, now, now)];
      nextDeviceId := nextDeviceId + 1;
    }

    /** MonitoredPorts.Add for one port. */
    method AddPort(p: MonitoredPort)
      modifies this
      ensures Snapshot() == old(Snapshot()).(ports := old(ports) + [p])
    {
      ports := ports + [p];
    }

    /** MonitoredPorts.Add for each port of a list, in order. */
    method AddPorts(ps: seq<MonitoredPort>)
      modifies this
      ensures Snapshot() == old(Snapshot()).(ports := old(ports) + ps)
    {
      var i := 0;
      while i < |ps|
        invariant 0 <= i <= |ps|
        invariant devices == old(devices) && nextDeviceId == old(nextDeviceId)
        invariant ports == old(ports) + ps[..i]
      {
        AddPort(ps[i]);
        assert ps[..i + 1] == ps[..i] + [ps[i]];
        i := i + 1;
      }
      assert ps[..i] == ps;
    }

    /** Writes back a tracked device after its fields were changed. */
    method Replace(k: nat, d: Device)
      requires k < |devices|
      modifies this
      ensures Snapshot() == old(Snapshot()).(devices := old(devices)[k := d])
    {
      devices := devices[k := d];
    }
  }
}
