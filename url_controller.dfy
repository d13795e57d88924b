/** The URL monitor endpoints (Controllers/URLController.cs, routed at api/UrlMonitor):
    the status report, reading, updating and checking one monitor by id. */
module UrlApi {
  import opened Common
  import opened Certificates
  import opened UrlModels
  import opened MonitoringApi
  import opened UrlService

  // ---------------------------------------------------------------------------
  // The status report

  /** The certificate part of a monitor's entry in the report. */
  datatype CertificateView = CertificateView(
    commonName: string, expiryDate: Time, daysUntilExpiry: int,
    isExpired: bool, isExpiringSoon: bool, status: CertificateStatus)

  datatype MonitorView = MonitorView(
    id: int, name: string, url: string, status: UrlStatus, lastChecked: Option<Time>,
    responseTime: Option<real>, certificate: Option<CertificateView>)

  datatype StatusReport = StatusReport(
    totalUrls: nat, upUrls: nat, downUrls: nat, errorUrls: nat,
    expiringCertificates: nat, expiredCertificates: nat, monitors: seq<MonitorView>)

  predicate StatusUp(m: MonitorRecord) { m.status == Up }
  predicate StatusDown(m: MonitorRecord) { m.status == Down }
  predicate StatusFailing(m: MonitorRecord) { m.status == Error || m.status == Timeout }
  predicate StatusUnknown(m: MonitorRecord) { m.status == UrlStatus.Unknown }

  /** `m.Certificate?.IsExpiringSoon == true`: a missing certificate is not expiring. */
  predicate CertificateExpiringSoon(m: MonitorRecord, now: Time)
  {
    m.certificate.Some? && IsExpiringSoon(m.certificate.value, now)
  }

  predicate CertificateExpired(m: MonitorRecord, now: Time)
  {
    m.certificate.Some? && IsExpired(m.certificate.value, now)
  }

  predicate HasCertificate(m: MonitorRecord) { m.certificate.Some? }

  function ViewOf(m: MonitorRecord, now: Time): (v: MonitorView)
    ensures v.certificate.None? <==> m.certificate.None?
    ensures v.id == m.id && v.status == m.status && v.responseTime == m.lastResponseTimeMs
  {
    MonitorView(m.id, m.name, m.url, m.status, m.lastChecked, m.lastResponseTimeMs,
      match m.certificate
      case None => None
      case Some(c) =>
        Some(CertificateView(c.commonName, c.expiryDate, DaysUntilExpiry(c, now),
                             IsExpired(c, now), IsExpiringSoon(c, now), c.status)))
  }

  function Views(rs: seq<MonitorRecord>, now: Time): (vs: seq<MonitorView>)
    decreases |rs|
  {
    if |rs| == 0 then [] else Views(rs[..|rs| - 1], now) + [ViewOf(rs[|rs| - 1], now)]
  }

  /** GetStatus: the counters over all monitors and one entry per monitor. */
  function GetStatus(rs: seq<MonitorRecord>, now: Time): StatusReport
  {
    StatusReport(|rs|, Count(rs, StatusUp), Count(rs, StatusDown), Count(rs, StatusFailing),
                 Count(rs, m => CertificateExpiringSoon(m, now)), Count(rs, m => CertificateExpired(m, now)),
                 Views(rs, now))
  }

  /** The status counters split the monitors: up, down and failing are disjoint, and
      together with the monitors never checked (Unknown) they make up the total. */
  lemma StatusCountsPartition(rs: seq<MonitorRecord>, now: Time)
    ensures var r := GetStatus(rs, now);
      r.upUrls + r.downUrls + r.errorUrls + Count(rs, StatusUnknown) == r.totalUrls
      && r.upUrls + r.downUrls + r.errorUrls <= r.totalUrls
  {
    var upOrDown := (m: MonitorRecord) => StatusUp(m) || StatusDown(m);
    var checked := (m: MonitorRecord) => upOrDown(m) || StatusFailing(m);
    var unchecked := (m: MonitorRecord) => !checked(m);
    CountDisjointUnion(rs, StatusUp, StatusDown, upOrDown);
    CountDisjointUnion(rs, upOrDown, StatusFailing, checked);
    CountComplement(rs, checked, unchecked);
    assert Count(rs, unchecked) == Count(rs, StatusUnknown) by {
      CountSame(rs, unchecked, StatusUnknown);
    }
  }

  /** Two conditions that agree everywhere count the same. */
  lemma {:induction false} CountSame<T>(s: seq<T>, p: T -> bool, q: T -> bool)
    requires forall x :: p(x) == q(x)
    ensures Count(s, p) == Count(s, q)
  {
    CountMonotonic(s, p, q);
    CountMonotonic(s, q, p);
  }

  /** The two certificate counters are disjoint and both count only monitors that have
      a certificate. */
  lemma CertificateCountsDisjoint(rs: seq<MonitorRecord>, now: Time)
    ensures var r := GetStatus(rs, now);
      r.expiringCertificates + r.expiredCertificates <= Count(rs, HasCertificate) <= r.totalUrls
  {
    var expiring := (m: MonitorRecord) => CertificateExpiringSoon(m, now);
    var expired := (m: MonitorRecord) => CertificateExpired(m, now);
    var either := (m: MonitorRecord) => expiring(m) || expired(m);
    forall m: MonitorRecord ensures !(expiring(m) && expired(m)) {
      if m.certificate.Some? {
        ExpiryWindows(m.certificate.value, now);
      }
    }
    CountDisjointUnion(rs, expiring, expired, either);
    CountMonotonic(rs, either, HasCertificate);
  }

  /** The report has one entry per monitor, in order, and an entry's certificate part is
      present exactly when the monitor has a certificate. */
  lemma {:induction false} ViewsMatchMonitors(rs: seq<MonitorRecord>, now: Time)
    ensures |Views(rs, now)| == |rs|
    ensures forall i :: 0 <= i < |rs| ==> Views(rs, now)[i] == ViewOf(rs[i], now)
    ensures forall i :: 0 <= i < |rs| ==> (Views(rs, now)[i].certificate.None? <==> rs[i].certificate.None?)
    decreases |rs|
  {
    if |rs| > 0 {
      ViewsMatchMonitors(rs[..|rs| - 1], now);
    }
  }

  // ---------------------------------------------------------------------------
  // One monitor by id

  /** FirstOrDefault by id: the position of the first monitor with that id. */
  function FirstWithId(rs: seq<MonitorRecord>, id: int): (r: Option<nat>)
    ensures r.None? <==> forall j :: 0 <= j < |rs| ==> rs[j].id != id
    ensures r.Some? ==> r.value < |rs| && rs[r.value].id == id && forall j :: 0 <= j < r.value ==> rs[j].id != id
    decreases |rs|
  {
    if |rs| == 0 then None
    else if rs[0].id == id then Some(0)
    else
      var rest := FirstWithId(rs[1..], id);
      assert forall j :: 1 <= j < |rs| ==> rs[j] == rs[1..][j - 1];
      if rest.None? then None else Some(rest.value + 1)
  }

  datatype Reply<T> = NotFound | Ok(value: T) | NoContent

  /** GetMonitor: the first monitor with the id, or NotFound. */
  function GetMonitor(rs: seq<MonitorRecord>, id: int): (r: Reply<MonitorRecord>)
    ensures r.NotFound? <==> forall j :: 0 <= j < |rs| ==> rs[j].id != id
    ensures r.Ok? ==> r.value in rs && r.value.id == id
  {
    match FirstWithId(rs, id)
    case None => NotFound
    case Some(i) => Ok(rs[i])
  }

  /** The body of an update request; the three settings default to true, 30 and 5 when
      the body omits them. */
  datatype UpdateRequest = UpdateRequest(
    name: Option<string>, description: Option<string>,
    isActive: bool, timeoutSeconds: int, checkIntervalMinutes: int)

  function RequestWithDefaults(name: Option<string>, description: Option<string>): UpdateRequest
  {
    UpdateRequest(name, description, true, 30, 5)
  }

  /** The monitor after an update: null name or description keep the old value, the
      three settings are always overwritten, and the service stamps UpdatedAt. */
  function Merged(m: MonitorRecord, req: UpdateRequest, now: Time): MonitorRecord
  {
    m.(name := OrElse(req.name, m.name), description := OrElse(req.description, m.description),
       isActive := req.isActive, timeoutSeconds := req.timeoutSeconds,
       checkIntervalMinutes := req.checkIntervalMinutes, updatedAt := now)
  }

  /** What an update writes and what it keeps: identity, history, counters and
      certificate are untouched. */
  lemma MergedFields(m: MonitorRecord, req: UpdateRequest, now: Time)
    ensures var r := Merged(m, req, now);
      (req.name.None? ==> r.name == m.name) && (req.name.Some? ==> r.name == req.name.value)
      && (req.description.None? ==> r.description == m.description)
      && (req.description.Some? ==> r.description == req.description.value)
      && r.isActive == req.isActive && r.timeoutSeconds == req.timeoutSeconds
      && r.checkIntervalMinutes == req.checkIntervalMinutes && r.updatedAt == now
      && r.id == m.id && r.url == m.url && r.status == m.status && r.certificate == m.certificate
      && r.totalChecks == m.totalChecks && r.successfulChecks == m.successfulChecks
      && r.uptimePercentage == m.uptimePercentage && r.createdAt == m.createdAt
      && (Consistent(m) ==> Consistent(r))
  {
  }

  /** A body that names only the name resets the monitor to active, 30 s and 5 min,
      whatever it was before, and leaves the description. */
  lemma OmittedSettingsReset(m: MonitorRecord, name: string, now: Time)
    ensures var r := Merged(m, RequestWithDefaults(Some(name), None), now);
      r.isActive && r.timeoutSeconds == 30 && r.checkIntervalMinutes == 5
      && r.name == name && r.description == m.description
  {
  }

  /** Updating twice with the same request is the same as updating once. */
  lemma MergedIdempotent(m: MonitorRecord, req: UpdateRequest, now: Time)
    ensures Merged(Merged(m, req, now), req, now) == Merged(m, req, now)
  {
  }

  /** The table after UpdateMonitor: the first monitor with the id merged, or nothing. */
  function UpdatedTable(rs: seq<MonitorRecord>, id: int, req: UpdateRequest, now: Time): seq<MonitorRecord>
  {
    match FirstWithId(rs, id)
    case None => rs
    case Some(i) => rs[i := Merged(rs[i], req, now)]
  }

  /** The table after CheckMonitor: the first monitor with the id checked, or nothing. */
  function CheckedTable(rs: seq<MonitorRecord>, id: int, a: HttpAnswer, now: Time): seq<MonitorRecord>
  {
    match FirstWithId(rs, id)
    case None => rs
    case Some(i) => rs[i := StatusCheck(rs[i], a, now)]
  }

  /** An unknown id leaves the table as it was; a known one changes only its first
      monitor, and only in the fields an update writes. */
  lemma UnknownIdChangesNothing(rs: seq<MonitorRecord>, id: int, req: UpdateRequest, a: HttpAnswer, now: Time)
    ensures GetMonitor(rs, id).NotFound? ==> UpdatedTable(rs, id, req, now) == rs && CheckedTable(rs, id, a, now) == rs
    ensures |UpdatedTable(rs, id, req, now)| == |rs| && |CheckedTable(rs, id, a, now)| == |rs|
    ensures forall j :: 0 <= j < |rs| && rs[j].id != id ==>
      UpdatedTable(rs, id, req, now)[j] == rs[j] && CheckedTable(rs, id, a, now)[j] == rs[j]
  {
  }

  /** After an update the monitor found by the id is the merged one. */
  lemma UpdateThenGet(rs: seq<MonitorRecord>, id: int, req: UpdateRequest, now: Time)
    requires GetMonitor(rs, id).Ok?
    ensures GetMonitor(UpdatedTable(rs, id, req, now), id) == Ok(Merged(GetMonitor(rs, id).value, req, now))
  {
    var i := FirstWithId(rs, id).value;
    var after := UpdatedTable(rs, id, req, now);
    assert after[i].id == id;
    assert forall j :: 0 <= j < i ==> after[j].id != id;
    assert FirstWithId(after, id) == Some(i) by {
      var k := FirstWithId(after, id);
      assert k.Some?;
      assert !(k.value < i) && !(i < k.value);
    }
  }

  // ---------------------------------------------------------------------------
  // The endpoints on the monitor objects

  /** UpdateMonitor: merge the request into the first monitor with the id. */
  method UpdateMonitor(table: seq<UrlMonitor>, id: int, req: UpdateRequest, now: Time) returns (r: Reply<()>)
    requires Distinct(table)
    modifies set m | m in table
    ensures r.NotFound? <==> GetMonitor(old(Snapshots(table)), id).NotFound?
    ensures r.NoContent? <==> !r.NotFound?
    ensures Snapshots(table) == UpdatedTable(old(Snapshots(table)), id, req, now)
  {
    ghost var before := Snapshots(table);
    SnapshotsEach(table);
    var found := FirstWithId(Snapshots(table), id);
    if found.None? {
      return NotFound;
    }
    var i := found.value;
    assert forall j :: 0 <= j < |table| && j != i ==> table[j] != table[i];
    Rename(table[i], req.name, req.description);
    Reschedule(table[i], req.isActive, req.timeoutSeconds, req.checkIntervalMinutes, now);
    SnapshotsOfEach(table, before[i := Merged(before[i], req, now)]);
    r := NoContent;
  }

  method Rename(m: UrlMonitor, name: Option<string>, description: Option<string>)
    modifies m
    ensures m.Snapshot() == old(m.Snapshot()).(name := OrElse(name, old(m.name)),
                                              description := OrElse(description, old(m.description)))
  {
    m.name := OrElse(name, m.name);
    m.description := OrElse(description, m.description);
  }

  method Reschedule(m: UrlMonitor, isActive: bool, timeoutSeconds: int, checkIntervalMinutes: int, now: Time)
    modifies m
    ensures m.Snapshot() == old(m.Snapshot()).(isActive := isActive, timeoutSeconds := timeoutSeconds,
                                              checkIntervalMinutes := checkIntervalMinutes, updatedAt := now)
  {
    m.isActive := isActive;
    m.timeoutSeconds := timeoutSeconds;
    m.checkIntervalMinutes := checkIntervalMinutes;
    m.updatedAt := now;
  }

  /** CheckMonitor: run the status check on the first monitor with the id and return it. */
  method CheckMonitor(table: seq<UrlMonitor>, id: int, a: HttpAnswer, now: Time) returns (r: Reply<MonitorRecord>)
    requires Distinct(table)
    modifies set m | m in table
    ensures r.NotFound? <==> GetMonitor(old(Snapshots(table)), id).NotFound?
    ensures r.Ok? ==> r.value == StatusCheck(GetMonitor(old(Snapshots(table)), id).value, a, now)
    ensures Snapshots(table) == CheckedTable(old(Snapshots(table)), id, a, now)
  {
    ghost var before := Snapshots(table);
    SnapshotsEach(table);
    var found := FirstWithId(Snapshots(table), id);
    if found.None? {
      return NotFound;
    }
    var i := found.value;
    assert forall j :: 0 <= j < |table| && j != i ==> table[j] != table[i];
    CheckUrl(table[i], a, now);
    SnapshotsOfEach(table, before[i := StatusCheck(before[i], a, now)]);
    r := Ok(table[i].Snapshot());
  }
}
