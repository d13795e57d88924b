/** The monitoring API (Controllers/MonitoringController.cs, routed at api/monitoring):
    the full-statistics check of every active monitor, the expiring-certificate
    window and the certificate summary shown on the dashboard. */
module MonitoringApi {
  import opened Common
  import opened Certificates
  import opened UrlModels

  /** Everything the network says during one full check of one monitor: the HTTP
      answer, and the TLS answer, which is consulted only for https monitors with
      certificate monitoring on, and only after an HTTP response. */
  datatype Probe = Probe(http: HttpAnswer, tls: TlsAnswer)

  /** HttpClient refuses a timeout that is not positive or exceeds Int32.MaxValue
      milliseconds; the refusal is an exception raised inside the check. */
  predicate AcceptedClientTimeout(seconds: int)
  {
    0 < seconds && seconds * SecondMs <= Int32Max
  }

  /** The message recorded when HttpClient refuses the configured timeout: the
      ArgumentOutOfRangeException raised for its `value` parameter. */
  const TimeoutRefused: string := "Specified argument was out of the range of valid values. (Parameter 'value')"

  /** The fields a check never writes: identity and configuration. */
  predicate SameConfiguration(a: MonitorRecord, b: MonitorRecord)
  {
    a.id == b.id && a.url == b.url && a.name == b.name && a.description == b.description
    && a.isActive == b.isActive && a.timeoutSeconds == b.timeoutSeconds
    && a.checkIntervalMinutes == b.checkIntervalMinutes && a.monitorSsl == b.monitorSsl
    && a.createdAt == b.createdAt && a.certificateId == b.certificateId
  }

  /** The first three statements of the loop body: count the check and stamp it. */
  function Started(m: MonitorRecord, now: Time): (r: MonitorRecord)
    ensures SameConfiguration(m, r)
    ensures r.totalChecks == m.totalChecks + 1 && r.successfulChecks == m.successfulChecks
  {
    m.(totalChecks := m.totalChecks + 1, updatedAt := now, lastChecked := Some(now))
  }

  /** The state left by the exception handler of the check. */
  function Failure(m: MonitorRecord, message: string, now: Time): (r: MonitorRecord)
    ensures SameConfiguration(m, r)
    ensures r.status == Error && r.lastError == message
    ensures r.lastResponseCode == None && r.lastResponseTimeMs == None && r.lastDowntime == Some(now)
    ensures r.consecutiveFailures == m.consecutiveFailures + 1
    ensures r.successfulChecks == m.successfulChecks && r.totalChecks == m.totalChecks
  {
    m.(status := Error, lastResponseCode := None, lastResponseTimeMs := None,
       lastDowntime := Some(now), lastError := message,
       consecutiveFailures := m.consecutiveFailures + 1)
  }

  /** The certificate object built from a completed handshake: a fresh record whose
      thumbprint is the serial number (section 4.1.2.2 of RFC 5280) and whose expiry is
      `NotAfter` in the host's local time. */
  function ObservedCertificate(t: TlsAnswer, now: Time): Certificate
    requires t.Handshake?
  {
    NewCertificate(now).(commonName := t.commonName, expiryDate := t.notAfter + t.utcOffset,
                         issuer := t.issuer, thumbprint := t.serialNumber)
  }

  function WithCertificate(m: MonitorRecord, t: TlsAnswer, now: Time): (r: MonitorRecord)
    requires t.Handshake?
    ensures SameConfiguration(m, r)
  {
    m.(certificate := Some(ObservedCertificate(t, now)))
  }

  /** The state after the HTTP response has been judged. */
  function Judged(m: MonitorRecord, code: int, elapsedMs: real, now: Time): (r: MonitorRecord)
    ensures SameConfiguration(m, r) && r.totalChecks == m.totalChecks
    ensures r.successfulChecks == m.successfulChecks + (if IsSuccessStatusCode(code) then 1 else 0)
    ensures r.status == (if IsSuccessStatusCode(code) then Up else Down)
  {
    var answered := m.(lastResponseCode := Some(code), lastResponseTimeMs := Some(elapsedMs), lastError := "");
    if IsSuccessStatusCode(code) then
      answered.(status := Up, lastUptime := Some(now),
                successfulChecks := m.successfulChecks + 1, consecutiveFailures := 0)
    else
      answered.(status := Down, lastDowntime := Some(now),
                consecutiveFailures := m.consecutiveFailures + 1)
  }

  /** The last statement of the loop body: the percentage from the two counters. */
  function Recomputed(m: MonitorRecord): (r: MonitorRecord)
    ensures SameConfiguration(m, r)
    ensures r.uptimePercentage == Ratio(r.successfulChecks, r.totalChecks)
  {
    m.(uptimePercentage := Ratio(m.successfulChecks, m.totalChecks))
  }

  predicate ChecksTls(m: MonitorRecord)
  {
    IsHttps(m.url) && m.monitorSsl
  }

  /** One iteration of CheckAllMonitors on one monitor, in the order of the source:
      count the check, ask the network, judge the response, look at the certificate,
      fall into the exception handler on any exception, recompute the percentage. */
  function FullCheck(m: MonitorRecord, p: Probe, now: Time): (r: MonitorRecord)
    ensures SameConfiguration(m, r)
    ensures r.totalChecks == m.totalChecks + 1 && r.lastChecked == Some(now) && r.updatedAt == now
    ensures r.successfulChecks == m.successfulChecks || r.successfulChecks == m.successfulChecks + 1
    ensures r.status == Up || r.status == Down || r.status == Error
    ensures r.uptimePercentage == Ratio(r.successfulChecks, r.totalChecks)
  {
    var started := Started(m, now);
    var outcome :=
      if !AcceptedClientTimeout(m.timeoutSeconds) then Failure(started, TimeoutRefused, now)
      else match p.http
        case TimedOut(message) => Failure(started, message, now)
        case Failed(message) => Failure(started, message, now)
        case Response(code, elapsedMs) =>
          var judged := Judged(started, code, elapsedMs, now);
          if !ChecksTls(m) then judged
          else match p.tls
            case Handshake(_, _, _, _, _) => WithCertificate(judged, p.tls, now)
            case TlsFailed(message) => Failure(judged, message, now);
    Recomputed(outcome)
  }

  /** Every full check counts one check, stamps it, and keeps the monitor invariant;
      the status it leaves is Up, Down or Error, never Timeout. */
  lemma FullCheckBookkeeping(m: MonitorRecord, p: Probe, now: Time)
    requires Consistent(m)
    ensures var r := FullCheck(m, p, now);
      Consistent(r) && 0.0 <= r.uptimePercentage <= 100.0
      && r.totalChecks == m.totalChecks + 1 && r.lastChecked == Some(now) && r.updatedAt == now
      && (r.successfulChecks == m.successfulChecks || r.successfulChecks == m.successfulChecks + 1)
      && r.status in {Up, Down, Error}
      && r.uptimePercentage == ReliabilityScore(r)
  {
  }

  /** A 2xx response, with no certificate step or a completed one, brings the monitor Up
      and resets the failure streak. */
  lemma SuccessfulResponse(m: MonitorRecord, p: Probe, now: Time)
    requires AcceptedClientTimeout(m.timeoutSeconds)
    requires p.http.Response? && IsSuccessStatusCode(p.http.code)
    requires !ChecksTls(m) || p.tls.Handshake?
    ensures var r := FullCheck(m, p, now);
      r.status == Up && IsUp(r) && r.lastUptime == Some(now) && r.lastDowntime == m.lastDowntime
      && r.successfulChecks == m.successfulChecks + 1 && r.consecutiveFailures == 0
      && r.lastResponseCode == Some(p.http.code) && r.lastResponseTimeMs == Some(p.http.elapsedMs)
      && r.lastError == ""
  {
  }

  /** Any other response brings the monitor Down and extends the failure streak. */
  lemma UnsuccessfulResponse(m: MonitorRecord, p: Probe, now: Time)
    requires AcceptedClientTimeout(m.timeoutSeconds)
    requires p.http.Response? && !IsSuccessStatusCode(p.http.code)
    requires !ChecksTls(m) || p.tls.Handshake?
    ensures var r := FullCheck(m, p, now);
      r.status == Down && r.lastDowntime == Some(now) && r.lastUptime == m.lastUptime
      && r.successfulChecks == m.successfulChecks && r.consecutiveFailures == m.consecutiveFailures + 1
      && r.lastResponseCode == Some(p.http.code) && r.lastError == ""
  {
  }

  /** Every exception, a timeout included, leaves Error with the exception's message
      and no response data, and extends the failure streak. */
  lemma ExceptionMeansError(m: MonitorRecord, p: Probe, now: Time)
    requires !p.http.Response?
    ensures var r := FullCheck(m, p, now);
      r.status == Error && r.status != Timeout
      && r.lastResponseCode == None && r.lastResponseTimeMs == None && r.lastDowntime == Some(now)
      && r.successfulChecks == m.successfulChecks && r.consecutiveFailures == m.consecutiveFailures + 1
      && r.lastError == (if AcceptedClientTimeout(m.timeoutSeconds) then p.http.message else TimeoutRefused)
      && r.certificate == m.certificate
  {
  }

  /** The status is Up exactly when the response was 2xx and no certificate step failed. */
  lemma UpExactly(m: MonitorRecord, p: Probe, now: Time)
    ensures IsUp(FullCheck(m, p, now)) <==>
      AcceptedClientTimeout(m.timeoutSeconds) && p.http.Response? && IsSuccessStatusCode(p.http.code)
      && (!ChecksTls(m) || p.tls.Handshake?)
  {
  }

  /** A failed certificate step after a 2xx response: Error, yet the success was
      already counted and the streak restarts from 1. */
  lemma TlsFailureAfterSuccess(m: MonitorRecord, p: Probe, now: Time)
    requires AcceptedClientTimeout(m.timeoutSeconds) && ChecksTls(m)
    requires p.http.Response? && IsSuccessStatusCode(p.http.code) && p.tls.TlsFailed?
    ensures var r := FullCheck(m, p, now);
      r.status == Error && r.successfulChecks == m.successfulChecks + 1
      && r.consecutiveFailures == 1 && r.lastUptime == Some(now) && r.lastDowntime == Some(now)
      && r.lastResponseCode == None && r.lastError == p.tls.message
  {
  }

  /** A failed certificate step after a non-2xx response counts two failures in one check. */
  lemma TlsFailureAfterFailure(m: MonitorRecord, p: Probe, now: Time)
    requires AcceptedClientTimeout(m.timeoutSeconds) && ChecksTls(m)
    requires p.http.Response? && !IsSuccessStatusCode(p.http.code) && p.tls.TlsFailed?
    ensures var r := FullCheck(m, p, now);
      r.status == Error && r.successfulChecks == m.successfulChecks
      && r.consecutiveFailures == m.consecutiveFailures + 2
  {
  }

  /** A completed handshake always replaces the certificate with a fresh record carrying
      the serial number as thumbprint, whatever certificate was there before; without
      a handshake the certificate stays. */
  lemma CertificateReplaced(m: MonitorRecord, p: Probe, now: Time)
    ensures var r := FullCheck(m, p, now);
      if AcceptedClientTimeout(m.timeoutSeconds) && p.http.Response? && ChecksTls(m) && p.tls.Handshake? then
        r.certificate.Some? && r.certificate.value.thumbprint == p.tls.serialNumber
        && r.certificate.value.commonName == p.tls.commonName
        && r.certificate.value.expiryDate == p.tls.notAfter + p.tls.utcOffset && r.certificate.value.issuer == p.tls.issuer
        && r.certificate.value.id == 0 && r.certificate.value.createdAt == now
      else
        r.certificate == m.certificate
  {
  }

  /** The local-time expiry is compared with the UTC clock unconverted: a certificate
      counts as expired only once the offset has passed after its real end, so on a
      host ahead of UTC it stays unexpired that long, and behind UTC it expires early. */
  lemma LocalTimeShift(t: TlsAnswer, created: Time, at: Time)
    requires t.Handshake?
    ensures var c := ObservedCertificate(t, created);
      (IsExpired(c, at) <==> at > t.notAfter + t.utcOffset)
      && (t.utcOffset > 0 && t.notAfter < at <= t.notAfter + t.utcOffset ==> !IsExpired(c, at))
      && (t.utcOffset < 0 && t.notAfter + t.utcOffset < at <= t.notAfter ==> IsExpired(c, at))
      && DaysUntilExpiry(c, at) == TruncDiv(t.notAfter + t.utcOffset - at, DayMs)
  {
  }

  /** Consecutive full checks over a sequence of probes, one per check. */
  function RunFullChecks(m: MonitorRecord, ps: seq<Probe>, now: Time): MonitorRecord
    decreases |ps|
  {
    if |ps| == 0 then m else RunFullChecks(FullCheck(m, ps[0], now), ps[1..], now)
  }

  predicate FailingProbe(m: MonitorRecord, p: Probe)
  {
    !AcceptedClientTimeout(m.timeoutSeconds) || !p.http.Response? || !IsSuccessStatusCode(p.http.code)
  }

  /** n checks that never see a 2xx response grow the failure streak by at least n and
      add n checks without adding a success. */
  lemma {:induction false} FailuresAccumulate(m: MonitorRecord, ps: seq<Probe>, now: Time)
    requires forall i :: 0 <= i < |ps| ==> FailingProbe(m, ps[i])
    ensures var r := RunFullChecks(m, ps, now);
      r.consecutiveFailures >= m.consecutiveFailures + |ps|
      && r.totalChecks == m.totalChecks + |ps| && r.successfulChecks == m.successfulChecks
    decreases |ps|
  {
    if |ps| > 0 {
      var m' := FullCheck(m, ps[0], now);
      assert forall i :: 0 <= i < |ps[1..]| ==> FailingProbe(m', ps[1..][i]) by {
        forall i | 0 <= i < |ps[1..]|
          ensures FailingProbe(m', ps[1..][i])
        {
          assert ps[1..][i] == ps[i + 1];
        }
      }
      FailuresAccumulate(m', ps[1..], now);
    }
  }

  /** A run of checks keeps the monitor invariant, so the percentage stays within 0..100. */
  lemma {:induction false} RunKeepsValid(m: MonitorRecord, ps: seq<Probe>, now: Time)
    requires Consistent(m)
    ensures Consistent(RunFullChecks(m, ps, now))
    ensures RunFullChecks(m, ps, now).totalChecks == m.totalChecks + |ps|
    decreases |ps|
  {
    if |ps| > 0 {
      FullCheckBookkeeping(m, ps[0], now);
      RunKeepsValid(FullCheck(m, ps[0], now), ps[1..], now);
    }
  }

  // ---------------------------------------------------------------------------
  // The check-all endpoint

  /** The entry the endpoint returns for one checked monitor. */
  datatype CheckSummary = CheckSummary(
    id: int, name: string, url: string, status: UrlStatus,
    lastResponseCode: Option<int>, lastResponseTimeMs: Option<real>,
    lastError: string, uptimePercentage: real, consecutiveFailures: nat)

  function SummaryOf(m: MonitorRecord): CheckSummary
  {
    CheckSummary(m.id, m.name, m.url, m.status, m.lastResponseCode, m.lastResponseTimeMs,
                 m.lastError, m.uptimePercentage, m.consecutiveFailures)
  }

  datatype Cycle = Cycle(records: seq<MonitorRecord>, summaries: seq<CheckSummary>)

  /** The effect of CheckAllMonitors on the table: the active monitors are checked in
      table order, the k-th of them with probe k, and each yields one summary. */
  function FullCycle(rs: seq<MonitorRecord>, probes: nat -> Probe, now: Time): Cycle
    decreases |rs|
  {
    if |rs| == 0 then Cycle([], []) else Extended(FullCycle(rs[..|rs| - 1], probes, now), rs[|rs| - 1], probes, now)
  }

  /** The cycle so far, followed by the next monitor of the table. */
  function Extended(c: Cycle, m: MonitorRecord, probes: nat -> Probe, now: Time): Cycle
  {
    if m.isActive then
      var r := FullCheck(m, probes(|c.summaries|), now);
      Cycle(c.records + [r], c.summaries + [SummaryOf(r)])
    else Cycle(c.records + [m], c.summaries)
  }

  function IsActive(m: MonitorRecord): bool { m.isActive }

  /** The cycle touches only active monitors, each exactly once, and reports them in
      table order, one summary each. */
  lemma {:induction false} FullCycleShape(rs: seq<MonitorRecord>, probes: nat -> Probe, now: Time)
    ensures var c := FullCycle(rs, probes, now);
      |c.records| == |rs| && |c.summaries| == Count(rs, IsActive)
      && (forall i :: 0 <= i < |rs| && !rs[i].isActive ==> c.records[i] == rs[i])
      && (forall i :: 0 <= i < |rs| && rs[i].isActive ==>
            c.records[i].totalChecks == rs[i].totalChecks + 1 && c.records[i].lastChecked == Some(now))
      && (forall k :: 0 <= k < |c.summaries| ==> c.summaries[k].id == Filter(rs, IsActive)[k].id)
    decreases |rs|
  {
    if |rs| > 0 {
      var init := rs[..|rs| - 1];
      FullCycleShape(init, probes, now);
      var m := rs[|rs| - 1];
      var before := FullCycle(init, probes, now);
    }
  }

  /** The cycle keeps the monitor invariant on every monitor of the table. */
  lemma {:induction false} FullCycleKeepsValid(rs: seq<MonitorRecord>, probes: nat -> Probe, now: Time)
    requires forall i :: 0 <= i < |rs| ==> Consistent(rs[i])
    ensures forall i :: 0 <= i < |FullCycle(rs, probes, now).records| ==> Consistent(FullCycle(rs, probes, now).records[i])
    decreases |rs|
  {
    if |rs| > 0 {
      var init := rs[..|rs| - 1];
      FullCycleKeepsValid(init, probes, now);
      var before := FullCycle(init, probes, now);
      var m := rs[|rs| - 1];
      var last := if m.isActive then FullCheck(m, probes(|before.summaries|), now) else m;
      if m.isActive {
        FullCheckBookkeeping(m, probes(|before.summaries|), now);
      }
      var c := FullCycle(rs, probes, now);
      assert c.records == before.records + [last];
      forall i | 0 <= i < |c.records|
        ensures Consistent(c.records[i])
      {
        if i < |before.records| {
          assert c.records[i] == before.records[i];
        }
      }
    }
  }

  /** One iteration of the loop, on the monitor object itself. Each step below writes
      a few fields; this method only sequences them as the source does. */
  method CheckMonitorFully(m: UrlMonitor, p: Probe, now: Time)
    modifies m
    ensures m.Snapshot() == FullCheck(old(m.Snapshot()), p, now)
  {
    Start(m, now);
    if !AcceptedClientTimeout(m.timeoutSeconds) {
      Fail(m, TimeoutRefused, now);
    } else if p.http.Response? {
      Judge(m, p.http.code, p.http.elapsedMs, now);
      if IsHttps(m.url) && m.monitorSsl {
        if p.tls.Handshake? {
          AttachCertificate(m, p.tls, now);
        } else {
          Fail(m, p.tls.message, now);
        }
      }
    } else {
      Fail(m, p.http.message, now);
    }
    RecomputeUptime(m);
  }

  method Start(m: UrlMonitor, now: Time)
    modifies m
    ensures m.Snapshot() == Started(old(m.Snapshot()), now)
  {
    m.totalChecks := m.totalChecks + 1;
    m.updatedAt := now;
    m.lastChecked := Some(now);
  }

  method Judge(m: UrlMonitor, code: int, elapsedMs: real, now: Time)
    modifies m
    ensures m.Snapshot() == Judged(old(m.Snapshot()), code, elapsedMs, now)
  {
    RecordResponse(m, code, elapsedMs);
    if IsSuccessStatusCode(code) {
      MarkUp(m, now);
    } else {
      MarkDown(m, now);
    }
  }

  method RecordResponse(m: UrlMonitor, code: int, elapsedMs: real)
    modifies m
    ensures m.Snapshot() == old(m.Snapshot()).(lastResponseCode := Some(code),
                                              lastResponseTimeMs := Some(elapsedMs), lastError := "")
  {
    m.lastResponseCode := Some(code);
    m.lastResponseTimeMs := Some(elapsedMs);
    m.lastError := "";
  }

  method MarkUp(m: UrlMonitor, now: Time)
    modifies m
    ensures m.Snapshot() == old(m.Snapshot()).(status := Up, lastUptime := Some(now),
                                              successfulChecks := old(m.successfulChecks) + 1,
                                              consecutiveFailures := 0)
  {
    m.status := Up;
    m.lastUptime := Some(now);
    m.successfulChecks := m.successfulChecks + 1;
    m.consecutiveFailures := 0;
  }

  method MarkDown(m: UrlMonitor, now: Time)
    modifies m
    ensures m.Snapshot() == old(m.Snapshot()).(status := Down, lastDowntime := Some(now),
                                              consecutiveFailures := old(m.consecutiveFailures) + 1)
  {
    m.status := Down;
    m.lastDowntime := Some(now);
    m.consecutiveFailures := m.consecutiveFailures + 1;
  }

  method AttachCertificate(m: UrlMonitor, t: TlsAnswer, now: Time)
    requires t.Handshake?
    modifies m
    ensures m.Snapshot() == WithCertificate(old(m.Snapshot()), t, now)
  {
    m.certificate := Some(ObservedCertificate(t, now));
  }

  /** The exception handler of the loop body: no response data, then the error. */
  method Fail(m: UrlMonitor, message: string, now: Time)
    modifies m
    ensures m.Snapshot() == Failure(old(m.Snapshot()), message, now)
  {
    ClearResponse(m);
    MarkError(m, message, now);
  }

  method ClearResponse(m: UrlMonitor)
    modifies m
    ensures m.Snapshot() == old(m.Snapshot()).(lastResponseCode := None, lastResponseTimeMs := None)
  {
    m.lastResponseCode := None;
    m.lastResponseTimeMs := None;
  }

  method MarkError(m: UrlMonitor, message: string, now: Time)
    modifies m
    ensures m.Snapshot() == old(m.Snapshot()).(status := Error, lastDowntime := Some(now), lastError := message,
                                              consecutiveFailures := old(m.consecutiveFailures) + 1)
  {
    m.status := Error;
    m.lastDowntime := Some(now);
    m.lastError := message;
    m.consecutiveFailures := m.consecutiveFailures + 1;
  }

  method RecomputeUptime(m: UrlMonitor)
    modifies m
    ensures m.Snapshot() == Recomputed(old(m.Snapshot()))
  {
    m.uptimePercentage := if m.totalChecks > 0 then m.successfulChecks as real / m.totalChecks as real * 100.0 else 0.0;
  }

  /** CheckAllMonitors: loads the active monitors of the table in order and checks each
      one, the k-th with probe k; the loop's `if` plays the part of the query's filter. */
  method CheckAllMonitors(table: seq<UrlMonitor>, probes: nat -> Probe, now: Time)
    returns (results: seq<CheckSummary>)
    requires Distinct(table)
    modifies set m | m in table
    ensures Snapshots(table) == FullCycle(old(Snapshots(table)), probes, now).records
    ensures results == FullCycle(old(Snapshots(table)), probes, now).summaries
  {
    ghost var before := Snapshots(table);
    SnapshotsEach(table);
    ghost var c := Cycle([], []);
    results := [];
    var i := 0;
    while i < |table|
      invariant 0 <= i <= |table|
      invariant c == FullCycle(before[..i], probes, now) && |c.records| == i && results == c.summaries
      invariant forall j :: 0 <= j < |table| ==> table[j].Snapshot() == if j < i then c.records[j] else before[j]
    {
      FullCycleExtend(before, i, probes, now);
      assert forall j :: 0 <= j < |table| && j != i ==> table[j] != table[i];
      results := CheckEntry(table[i], results, c, probes, now);
      c := Extended(c, before[i], probes, now);
      i := i + 1;
    }
    assert before[..i] == before;
    SnapshotsOfEach(table, c.records);
  }

  /** One iteration of the loop: a monitor is checked when it is active, and its
      summary joins the results. */
  method CheckEntry(m: UrlMonitor, results: seq<CheckSummary>, ghost c: Cycle, probes: nat -> Probe, now: Time)
    returns (results': seq<CheckSummary>)
    requires results == c.summaries
    modifies m
    ensures Extended(c, old(m.Snapshot()), probes, now) == Cycle(c.records + [m.Snapshot()], results')
  {
    results' := results;
    if m.isActive {
      CheckMonitorFully(m, probes(|results|), now);
      results' := results + [SummaryOf(m.Snapshot())];
    }
  }

  /** One more monitor of the table, as one more iteration of the loop sees it. */
  lemma FullCycleExtend(rs: seq<MonitorRecord>, i: nat, probes: nat -> Probe, now: Time)
    requires i < |rs|
    ensures |FullCycle(rs[..i], probes, now).records| == i
    ensures FullCycle(rs[..i + 1], probes, now) == Extended(FullCycle(rs[..i], probes, now), rs[i], probes, now)
  {
    assert rs[..i + 1][..i] == rs[..i];
    FullCycleLength(rs[..i], probes, now);
  }

  lemma FullCycleLength(rs: seq<MonitorRecord>, probes: nat -> Probe, now: Time)
    ensures |FullCycle(rs, probes, now).records| == |rs|
  {
  }

  // ---------------------------------------------------------------------------
  // Certificates

  /** AddDays on DateTime throws outside 0001-01-01 .. 9999-12-31. */
  const MaxDate: Time := 253402300799999

  function ExpiryOf(c: Certificate): int { c.expiryDate }

  /** The certificates expiring after `now` and no later than `days` days from now,
      earliest first; None where computing the cutoff throws (the 500 response). */
  function ExpiringCertificates(certs: seq<Certificate>, now: Time, days: int): (r: Option<seq<Certificate>>)
    ensures r.Some? <==> MinDate <= now + days * DayMs <= MaxDate
    ensures r.Some? ==> SortedBy(r.value, ExpiryOf)
    ensures r.Some? ==> forall c :: c in r.value <==> c in certs && now < c.expiryDate <= now + days * DayMs
    ensures r.Some? ==> forall c :: multiset(r.value)[c] == if now < c.expiryDate <= now + days * DayMs then multiset(certs)[c] else 0
  {
    var cutoff := now + days * DayMs;
    if cutoff < MinDate || cutoff > MaxDate then None
    else
      var inWindow := (c: Certificate) => c.expiryDate <= cutoff && c.expiryDate > now;
      var window := Filter(certs, inWindow);
      assert forall c :: c in certs && inWindow(c) ==> c in window by {
        forall c | c in certs && inWindow(c) ensures c in window { FilterKeeps(certs, inWindow, c); }
      }
      forall c ensures c in SortBy(window, ExpiryOf) <==> c in window { SortByMembers(window, ExpiryOf, c); }
      forall c ensures multiset(SortBy(window, ExpiryOf))[c] == if inWindow(c) then multiset(certs)[c] else 0 {
        FilterMultiplicity(certs, inWindow, c);
      }
      Some(SortBy(window, ExpiryOf))
  }

  /** The dashboard's list: the first ten of the 30-day window. */
  function DashboardExpiring(certs: seq<Certificate>, now: Time): (r: Option<seq<Certificate>>)
    ensures r.Some? <==> ExpiringCertificates(certs, now, ExpiringSoonDays).Some?
    ensures r.Some? ==> var all := ExpiringCertificates(certs, now, ExpiringSoonDays).value;
      |r.value| == (if |all| < 10 then |all| else 10) && r.value == all[..|r.value|]
  {
    match ExpiringCertificates(certs, now, ExpiringSoonDays)
    case None => None
    case Some(all) => Some(if |all| <= 10 then all else all[..10])
  }

  /** Every certificate of the 30-day window is expiring soon in the model's terms,
      except one expiring exactly 30 days from now, which the window includes and
      IsExpiringSoon does not. */
  lemma WindowAgreesWithExpiringSoon(certs: seq<Certificate>, now: Time, c: Certificate)
    requires ExpiringCertificates(certs, now, ExpiringSoonDays).Some?
    requires c in ExpiringCertificates(certs, now, ExpiringSoonDays).value
    ensures IsExpiringSoon(c, now) <==> c.expiryDate != now + ExpiringSoonDays * DayMs
  {
  }

  /** The certificate summary sent with each dashboard monitor. */
  datatype CertificateDto = CertificateDto(id: int, expiryDate: Option<Time>)

  predicate DtoIsExpired(d: CertificateDto, now: Time)
  {
    d.expiryDate.Some? && d.expiryDate.value <= now
  }

  function DtoDaysUntilExpiry(d: CertificateDto, now: Time): (r: Option<int>)
    ensures r.None? <==> d.expiryDate.None?
  {
    if d.expiryDate.Some? then Some(TruncDiv(d.expiryDate.value - now, DayMs)) else None
  }

  /** The dashboard's summary of a monitor's certificate carries only the expiry date. */
  function DtoOf(c: Certificate): CertificateDto
  {
    CertificateDto(0, Some(c.expiryDate))
  }

  /** The summary agrees with the certificate on the day count, and on expiry except at
      the instant of expiry itself, where the summary says expired and the certificate
      does not. */
  lemma DtoAgreesWithCertificate(c: Certificate, now: Time)
    ensures DtoDaysUntilExpiry(DtoOf(c), now) == Some(DaysUntilExpiry(c, now))
    ensures DtoIsExpired(DtoOf(c), now) <==> IsExpired(c, now) || c.expiryDate == now
    ensures c.expiryDate == now ==> DtoIsExpired(DtoOf(c), now) && !IsExpired(c, now)
  {
  }
}
