/** The URL monitor (Models/URL.cs): a web address checked periodically, with its
    last outcome, its counters and the certificate last seen on it. The entity is
    updated in place by the checks, so it is a class; `Snapshot()` reads its fields
    into the value `MonitorRecord`, on which the rules are stated. */
module UrlModels {
  import opened Common
  import opened Certificates

  datatype UrlStatus = Unknown | Up | Down | Timeout | Error

  datatype MonitorRecord = MonitorRecord(
    id: int,
    url: string,
    name: string,
    description: string,
    isActive: bool,
    timeoutSeconds: int,
    checkIntervalMinutes: int,
    status: UrlStatus,
    lastResponseCode: Option<int>,
    lastResponseTimeMs: Option<real>,
    lastChecked: Option<Time>,
    lastUptime: Option<Time>,
    lastDowntime: Option<Time>,
    lastError: string,
    certificateId: Option<int>,
    monitorSsl: bool,
    consecutiveFailures: nat,
    totalChecks: nat,
    successfulChecks: nat,
    uptimePercentage: real,
    createdAt: Time,
    updatedAt: Time,
    certificate: Option<Certificate>)

  // ---------------------------------------------------------------------------
  // Answers from the network, passed in instead of performing I/O

  /** What an HTTP GET yields: a response with its status code and elapsed time,
      a cancellation because the client's timeout elapsed, or any other failure. */
  datatype HttpAnswer =
    | Response(code: int, elapsedMs: real)
    | TimedOut(message: string)
    | Failed(message: string)

  /** What a TLS handshake on port 443 yields: the server certificate's fields, or
      the message of the exception that ended the attempt. `notAfter` is the end of the
      validity period as an instant; `utcOffset` is the host's offset from UTC at that
      instant, which `X509Certificate2.NotAfter` adds when it converts to local time. */
  datatype TlsAnswer =
    | Handshake(commonName: string, notAfter: Time, utcOffset: int, issuer: string, serialNumber: string)
    | TlsFailed(message: string)

  /** HttpResponseMessage.IsSuccessStatusCode: the 2xx class of section 15.3 of RFC 9110. */
  predicate IsSuccessStatusCode(code: int)
  {
    200 <= code <= 299
  }

  // ---------------------------------------------------------------------------
  // Computed properties

  /** Successful checks as a percentage of all checks; 0 before the first check. */
  function Ratio(successful: nat, total: nat): (p: real)
    ensures total == 0 ==> p == 0.0
    ensures successful <= total ==> 0.0 <= p <= 100.0
    ensures 0 < total && successful == total ==> p == 100.0
  {
    if total > 0 then successful as real / total as real * 100.0 else 0.0
  }

  /** The monitor invariant: no more successes than checks, and the stored percentage
      is the ratio of the two. */
  predicate Consistent(m: MonitorRecord)
  {
    m.successfulChecks <= m.totalChecks && m.uptimePercentage == Ratio(m.successfulChecks, m.totalChecks)
  }

  predicate IsUp(m: MonitorRecord)
  {
    m.status == Up
  }

  const HttpsScheme: string := "https://"

  /** Whether the address starts with "https://", ignoring the case of ASCII letters. */
  predicate IsHttps(url: string)
  {
    StartsWith(ToLowerAscii(url), HttpsScheme)
  }

  /** Time since the monitor came back up, when it has been both up and down and the
      last up instant is the later one. */
  function Uptime(m: MonitorRecord, now: Time): (r: Option<Time>)
    ensures r.Some? <==> m.lastUptime.Some? && m.lastDowntime.Some? && m.lastUptime.value > m.lastDowntime.value
    ensures r.Some? ==> r.value == now - m.lastUptime.value
  {
    if m.lastUptime.Some? && m.lastDowntime.Some? then
      if m.lastUptime.value > m.lastDowntime.value then Some(now - m.lastUptime.value) else None
    else None
  }

  function ReliabilityScore(m: MonitorRecord): (score: real)
    ensures Consistent(m) ==> score == m.uptimePercentage && 0.0 <= score <= 100.0
    ensures m.totalChecks == 0 ==> score == 0.0
  {
    if m.totalChecks > 0 then m.successfulChecks as real / m.totalChecks as real * 100.0 else 0.0
  }

  /** A monitor as its property initialisers leave it, created at `now`. */
  function NewMonitor(now: Time): MonitorRecord
  {
    MonitorRecord(0, "", "", "", true, 30, 5, UrlStatus.Unknown, None, None, None, None, None, "", None,
                  true, 0, 0, 0, 0.0, now, now, None)
  }

  /** A new monitor is active, Unknown, with a 30-second timeout and a 5-minute interval,
      TLS monitoring on, no history, and it satisfies the monitor invariant. */
  lemma NewMonitorDefaults(now: Time)
    ensures var m := NewMonitor(now);
      Consistent(m) && m.isActive && m.monitorSsl && m.status == UrlStatus.Unknown && !IsUp(m)
      && m.timeoutSeconds == 30 && m.checkIntervalMinutes == 5
      && m.totalChecks == 0 && m.successfulChecks == 0 && m.consecutiveFailures == 0
      && ReliabilityScore(m) == 0.0 && Uptime(m, now) == None
  {
  }

  /** The scheme test ignores ASCII case in both directions. */
  lemma IsHttpsIgnoresCase(url: string)
    ensures IsHttps(url) <==> IsHttps(ToLowerAscii(url))
  {
    var lower := ToLowerAscii(url);
    assert ToLowerAscii(lower) == lower;
  }

  lemma IsHttpsExamples(rest: string)
    ensures IsHttps("https://" + rest)
    ensures IsHttps("HTTPS://" + rest)
    ensures !IsHttps("http://" + rest)
  {
    assert ToLowerAscii("https://" + rest)[..8] == "https://";
    assert ToLowerAscii("HTTPS://" + rest)[..8] == "https://";
    var h := ToLowerAscii("http://" + rest);
    assert h[4] == ToLowerAsciiChar(':') == ':';
  }

  class UrlMonitor {
    var id: int
    var url: string
    var name: string
    var description: string
    var isActive: bool
    var timeoutSeconds: int
    var checkIntervalMinutes: int
    var status: UrlStatus
    var lastResponseCode: Option<int>
    var lastResponseTimeMs: Option<real>
    var lastChecked: Option<Time>
    var lastUptime: Option<Time>
    var lastDowntime: Option<Time>
    var lastError: string
    var certificateId: Option<int>
    var monitorSsl: bool
    var consecutiveFailures: nat
    var totalChecks: nat
    var successfulChecks: nat
    var uptimePercentage: real
    var createdAt: Time
    var updatedAt: Time
    var certificate: Option<Certificate>

    function Snapshot(): MonitorRecord
      reads this
    {
      MonitorRecord(id, url, name, description, isActive, timeoutSeconds, checkIntervalMinutes,
                    status, lastResponseCode, lastResponseTimeMs, lastChecked, lastUptime, lastDowntime,
                    lastError, certificateId, monitorSsl, consecutiveFailures, totalChecks,
                    successfulChecks, uptimePercentage, createdAt, updatedAt, certificate)
    }

    constructor (now: Time)
      ensures Snapshot() == NewMonitor(now)
    {
      id, url, name, description := 0, "", "", "";
      isActive, timeoutSeconds, checkIntervalMinutes := true, 30, 5;
      status := UrlStatus.Unknown;
      lastResponseCode, lastResponseTimeMs := None, None;
      lastChecked, lastUptime, lastDowntime := None, None, None;
      lastError, certificateId, monitorSsl := "", None, true;
      consecutiveFailures, totalChecks, successfulChecks, uptimePercentage := 0, 0, 0, 0.0;
      createdAt, updatedAt := now, now;
      certificate := None;
    }
  }

  /** The records of a list of monitors, in list order. */
  function Snapshots(ms: seq<UrlMonitor>): (rs: seq<MonitorRecord>)
    reads set m | m in ms
    ensures |rs| == |ms|
  {
    if |ms| == 0 then [] else Snapshots(ms[..|ms| - 1]) + [ms[|ms| - 1].Snapshot()]
  }

  lemma {:induction false} SnapshotsIndex(ms: seq<UrlMonitor>, i: nat)
    requires i < |ms|
    ensures Snapshots(ms)[i] == ms[i].Snapshot()
    decreases |ms|
  {
    if i < |ms| - 1 {
      SnapshotsIndex(ms[..|ms| - 1], i);
    }
  }

  /** The records of a list are, index by index, the records of its monitors. */
  lemma SnapshotsEach(ms: seq<UrlMonitor>)
    ensures forall j :: 0 <= j < |ms| ==> Snapshots(ms)[j] == ms[j].Snapshot()
  {
    forall j | 0 <= j < |ms|
      ensures Snapshots(ms)[j] == ms[j].Snapshot()
    {
      SnapshotsIndex(ms, j);
    }
  }

  /** A list of records that agrees index by index with the monitors is their Snapshots. */
  lemma SnapshotsOfEach(ms: seq<UrlMonitor>, rs: seq<MonitorRecord>)
    requires |rs| == |ms|
    requires forall j :: 0 <= j < |ms| ==> ms[j].Snapshot() == rs[j]
    ensures Snapshots(ms) == rs
  {
    SnapshotsEach(ms);
  }

  /** Monitors as a table holds them: distinct objects. */
  predicate Distinct(ms: seq<UrlMonitor>)
  {
    forall i, j :: 0 <= i < j < |ms| ==> ms[i] != ms[j]
  }
}
