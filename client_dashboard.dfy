/** The dashboard script (wwwroot/js/Functions.js): the page's two global lists, the
    metric counters computed from them, the certificate badge of a monitor, and adding
    a device locally. */
module ClientDashboard {
  import opened Common
  import MonitoringApi

  /** JavaScript's `s || fallback` on a string: the empty string is falsy. */
  function JsOr(s: string, fallback: string): string
  {
    if s == "" then fallback else s
  }

  /** A device as the page keeps it. `monitoringEnabled` is absent on devices loaded
      from the server. */
  datatype ClientDevice = ClientDevice(
    id: int,
    ipAddress: string,
    hostname: string,
    deviceType: string,
    description: string,
    monitoringEnabled: Option<bool>,
    status: string,
    lastSeen: Option<Time>,
    responseTime: Option<int>)

  datatype SslCert = SslCert(daysUntilExpiry: int)

  /** A URL monitor as the page keeps it. */
  datatype ClientMonitor = ClientMonitor(
    id: int,
    url: string,
    name: string,
    description: string,
    status: string,
    responseTime: Option<int>,
    lastCheck: Time,
    sslCert: Option<SslCert>)

  /** The page's global `devices` and `urlMonitors` arrays. */
  class Dashboard {
    var devices: seq<ClientDevice>
    var urlMonitors: seq<ClientMonitor>

    constructor()
      ensures devices == [] && urlMonitors == []
    {
      devices := [];
      urlMonitors := [];
    }
  }

  // ---------------------------------------------------------------------------
  // Adding a device

  /** The add-device form's fields (each an empty string when left blank). */
  datatype DeviceForm = DeviceForm(ipAddress: string, hostname: string, deviceType: string,
                                   description: string, monitoringEnabled: bool)

  const CheckingStatus: string := "checking"

  /** The device addDevice builds, with Date.now() as its id and last-seen time. */
  function NewDevice(form: DeviceForm, now: Time): ClientDevice
  {
    ClientDevice(now, form.ipAddress, JsOr(form.hostname, "Unknown"), JsOr(form.deviceType, "other"),
                 JsOr(form.description, ""), Some(form.monitoringEnabled), CheckingStatus, Some(now), None)
  }

  /** A new device is being checked, seen now, with no response time; a blank host name
      or type falls back to "Unknown" or "other" and any other value is kept. */
  lemma NewDeviceDefaults(form: DeviceForm, now: Time)
    ensures var d := NewDevice(form, now);
      d.status == CheckingStatus && d.id == now && d.lastSeen == Some(now) && d.responseTime.None?
      && d.ipAddress == form.ipAddress
      && (form.hostname == "" <==> d.hostname == "Unknown" && form.hostname != "Unknown")
      && (form.hostname != "" ==> d.hostname == form.hostname)
      && (form.deviceType == "" ==> d.deviceType == "other")
      && (form.deviceType != "" ==> d.deviceType == form.deviceType)
      && d.description == form.description
      && d.monitoringEnabled == Some(form.monitoringEnabled)
  {
  }

  /** addDevice: push the new device onto the list. */
  method AddDevice(page: Dashboard, form: DeviceForm, now: Time)
    modifies page
    ensures page.devices == old(page.devices) + [NewDevice(form, now)]
    ensures page.urlMonitors == old(page.urlMonitors)
  {
    page.devices := page.devices + [NewDevice(form, now)];
  }

  // ---------------------------------------------------------------------------
  // Metrics

  datatype Metrics = Metrics(
    onlineDevices: nat,
    offlineDevices: nat,
    recentDevices: nat,
    totalDevices: nat,
    urlsUp: nat,
    urlsDown: nat,
    certsExpiring: nat,
    certsExpired: nat)

  predicate IsOnlineDevice(d: ClientDevice) { d.status == "online" }
  predicate IsOfflineDevice(d: ClientDevice) { d.status == "offline" }
  predicate IsOnlineOrOfflineDevice(d: ClientDevice) { d.status == "online" || d.status == "offline" }

  /** `new Date(d.lastSeen)`: a missing time reads as the epoch. */
  function SeenAt(d: ClientDevice): Time
  {
    if d.lastSeen.Some? then d.lastSeen.value else 0
  }

  /** Seen strictly within the last hour. */
  function SeenRecently(now: Time): ClientDevice -> bool
  {
    (d: ClientDevice) => SeenAt(d) > now - HourMs
  }

  predicate IsUpMonitor(m: ClientMonitor) { m.status == "up" }
  predicate IsDownMonitor(m: ClientMonitor) { m.status == "down" || m.status == "error" || m.status == "timeout" }
  predicate IsUpOrDownMonitor(m: ClientMonitor) { IsUpMonitor(m) || IsDownMonitor(m) }

  predicate CertExpiring(m: ClientMonitor)
  {
    m.sslCert.Some? && m.sslCert.value.daysUntilExpiry <= 30 && m.sslCert.value.daysUntilExpiry > 0
  }

  predicate CertExpired(m: ClientMonitor)
  {
    m.sslCert.Some? && m.sslCert.value.daysUntilExpiry <= 0
  }

  predicate CertFlagged(m: ClientMonitor) { CertExpiring(m) || CertExpired(m) }

  /** loadMetrics: the eight numbers written into the metric cards. */
  function LoadMetrics(devices: seq<ClientDevice>, monitors: seq<ClientMonitor>, now: Time): Metrics
  {
    Metrics(Count(devices, IsOnlineDevice), Count(devices, IsOfflineDevice), Count(devices, SeenRecently(now)),
            |devices|, Count(monitors, IsUpMonitor), Count(monitors, IsDownMonitor),
            Count(monitors, CertExpiring), Count(monitors, CertExpired))
  }

  /** The device counters and the URL counters each count disjoint groups, so each pair
      sums to at most the list's length; "checking" monitors, monitors without a
      certificate and devices with another status are in neither group. */
  lemma MetricsPartition(devices: seq<ClientDevice>, monitors: seq<ClientMonitor>, now: Time)
    ensures var m := LoadMetrics(devices, monitors, now);
      m.onlineDevices + m.offlineDevices <= m.totalDevices
      && m.recentDevices <= m.totalDevices
      && m.urlsUp + m.urlsDown <= |monitors|
      && m.certsExpiring + m.certsExpired <= |monitors|
  {
    CountDisjointUnion(devices, IsOnlineDevice, IsOfflineDevice, IsOnlineOrOfflineDevice);
    CountDisjointUnion(monitors, IsUpMonitor, IsDownMonitor, IsUpOrDownMonitor);
    CountDisjointUnion(monitors, CertExpiring, CertExpired, CertFlagged);
  }

  /** Which group a single monitor falls in. */
  lemma MonitorGroups(m: ClientMonitor)
    ensures !(IsUpMonitor(m) && IsDownMonitor(m)) && !(CertExpiring(m) && CertExpired(m))
    ensures m.status == CheckingStatus ==> !IsUpMonitor(m) && !IsDownMonitor(m)
    ensures m.sslCert.None? ==> !CertExpiring(m) && !CertExpired(m)
    ensures m.sslCert.Some? ==> (CertExpiring(m) || CertExpired(m) <==> m.sslCert.value.daysUntilExpiry <= 30)
  {
  }

  /** A device without a last-seen time counts as recent only within the first hour
      after the epoch; one seen exactly an hour ago no longer counts. */
  lemma RecentRule(d: ClientDevice, now: Time)
    ensures d.lastSeen.Some? ==> (SeenRecently(now)(d) <==> d.lastSeen.value > now - HourMs)
    ensures d.lastSeen == Some(now - HourMs) ==> !SeenRecently(now)(d)
    ensures d.lastSeen.None? && now >= HourMs ==> !SeenRecently(now)(d)
  {
  }

  // ---------------------------------------------------------------------------
  // Certificate badge

  /** The certificate as the dashboard reads it from a monitor: DaysUntilExpiry may be null. */
  datatype CertView = CertView(subject: string, daysUntilExpiry: Option<int>)

  datatype MonitorView = MonitorView(name: string, url: Option<string>, certificate: Option<CertView>)

  /** The badge: none, the "No certificate info" block, or a classified summary. */
  datatype CertInfo = NoInfo | NoCertificateInfo | CertSummary(cssClass: string, name: string, daysText: string)

  /** A null day count compares as 0 in `<=` and differs from 1 in `===`. */
  function JsDays(days: Option<int>): int
  {
    if days.Some? then days.value else 0
  }

  function CertClass(days: Option<int>): string
  {
    if JsDays(days) <= 0 then "cert-expired" else if JsDays(days) <= 30 then "cert-expiring" else "cert-valid"
  }

  function DaysText(days: Option<int>): string
  {
    if JsDays(days) <= 0 then "Expired"
    else if days == Some(1) then "1 day"
    else IntToString(days.value) + " days"
  }

  /** renderCertificateInfo. */
  function RenderCertificateInfo(m: MonitorView): CertInfo
  {
    if m.certificate.Some? then
      var c := m.certificate.value;
      CertSummary(CertClass(c.daysUntilExpiry), JsOr(c.subject, m.name), DaysText(c.daysUntilExpiry))
    else if m.url.Some? && StartsWith(m.url.value, "https://") then NoCertificateInfo
    else NoInfo
  }

  /** The class bands: expired up to 0 days (and for a null count), expiring for 1..30,
      valid beyond; the text says "Expired" exactly in the expired band, "1 day" for one
      day and "N days" otherwise. */
  lemma CertBadgeBands(days: Option<int>)
    ensures CertClass(days) == "cert-expired" <==> days.None? || days.value <= 0
    ensures CertClass(days) == "cert-expiring" <==> days.Some? && 1 <= days.value <= 30
    ensures CertClass(days) == "cert-valid" <==> days.Some? && days.value > 30
    ensures DaysText(days) == "Expired" <==> CertClass(days) == "cert-expired"
    ensures DaysText(days) == "1 day" <==> days == Some(1)
    ensures days.Some? && days.value > 1 ==> DaysText(days) == NatToString(days.value) + " days"
  {
    if days.Some? && days.value > 1 {
      var t := NatToString(days.value) + " days";
      assert t[|t| - 1] == 's';
    }
  }

  /** Without a certificate the badge depends only on whether the URL is https. */
  lemma NoCertificateBadge(m: MonitorView)
    requires m.certificate.None?
    ensures RenderCertificateInfo(m) == NoCertificateInfo <==> m.url.Some? && StartsWith(m.url.value, "https://")
    ensures RenderCertificateInfo(m) != NoCertificateInfo ==> RenderCertificateInfo(m) == NoInfo
  {
  }

  /** With the server's day count (truncated toward zero), a certificate with less than
      a whole day left is already shown as expired, and one that expired within the
      last day likewise. */
  lemma ServerDaysBadge(dto: MonitoringApi.CertificateDto, now: Time)
    ensures var days := MonitoringApi.DtoDaysUntilExpiry(dto, now);
      (CertClass(days) == "cert-expired" <==> dto.expiryDate.None? || dto.expiryDate.value - now < DayMs)
      && (dto.expiryDate.Some? && now < dto.expiryDate.value < now + DayMs ==>
            CertClass(days) == "cert-expired" && !MonitoringApi.DtoIsExpired(dto, now))
  {
    CertBadgeBands(MonitoringApi.DtoDaysUntilExpiry(dto, now));
  }
}
